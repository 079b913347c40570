/**
 Batch billing of the club's "cargo a socio" orders: billing runs collect unbilled orders of a
 period into one billing invoice per affiliate, and each billing invoice becomes a journal
 invoice. Record ids are positions. A failed action leaves no trace.
 */
module Billing {
  import opened Prelude
  import opened Money

  datatype Payment = Payment(cargo: bool, amount: int)

  /** `settled` stands for the states paid, done and invoiced. */
  datatype Order = Order(
    partner: Option<nat>, payments: seq<Payment>, date: int, settled: bool, billed: bool, invoice: Option<nat>)

  datatype RunStatus = Draft | Processing | Completed | Cancelled

  datatype BillingRun = BillingRun(first: int, last: int, status: RunStatus)

  datatype InvoiceStatus = Pending | Invoiced | InError

  datatype BillingInvoice = BillingInvoice(run: nat, affiliate: nat, status: InvoiceStatus, journal: Option<nat>)

  datatype BillingLine = BillingLine(invoice: nat, order: nat, amount: int)

  /** A customer invoice in the journal; `origin` is the billing invoice it was created for. */
  datatype JournalInvoice = JournalInvoice(origin: nat, prices: seq<int>)

  datatype Books = Books(
    affiliates: map<nat, nat>, orders: seq<Order>, runs: seq<BillingRun>,
    invoices: seq<BillingInvoice>, lines: seq<BillingLine>, journal: seq<JournalInvoice>)

  datatype Refusal = NoSuchRun | NotDraft | NotOpen | NotCancelled

  function Cargo(payments: seq<Payment>): int
  {
    if payments == [] then 0
    else (if payments[0].cargo then payments[0].amount else 0) + Cargo(payments[1..])
  }

  predicate HasCargo(payments: seq<Payment>)
  {
    exists i :: 0 <= i < |payments| && payments[i].cargo
  }

  // ---------------------------------------------------------------- generating a run

  datatype Group = Group(partner: nat, orders: seq<nat>)

  predicate Eligible(o: Order, run: BillingRun)
  {
    run.first <= o.date <= run.last && HasCargo(o.payments) && !o.billed && o.settled
  }

  function AddToGroups(groups: seq<Group>, partner: nat, order: nat): seq<Group>
  {
    if groups == [] then [Group(partner, [order])]
    else if groups[0].partner == partner then [groups[0].(orders := groups[0].orders + [order])] + groups[1..]
    else [groups[0]] + AddToGroups(groups[1..], partner, order)
  }

  /** The eligible orders from position `o` on, grouped by partner in order of first appearance. */
  function GroupOrders(s: Books, run: BillingRun, o: nat, groups: seq<Group>): seq<Group>
    requires o <= |s.orders|
    decreases |s.orders| - o
  {
    if o == |s.orders| then groups
    else
      var order := s.orders[o];
      GroupOrders(s, run, o + 1,
        if Eligible(order, run) && order.partner.Some? then AddToGroups(groups, order.partner.value, o) else groups)
  }

  function NewInvoice(s: Books, run: nat, affiliate: nat): Books
  {
    s.(invoices := s.invoices + [BillingInvoice(run, affiliate, Pending, None)])
  }

  /** One billing line, and the order marked as billed on its invoice. */
  function BillOrder(s: Books, invoice: nat, o: nat): Books
    requires o < |s.orders|
  {
    s.(lines := s.lines + [BillingLine(invoice, o, Cargo(s.orders[o].payments))],
       orders := s.orders[o := s.orders[o].(billed := true, invoice := Some(invoice))])
  }

  function BillOrders(s: Books, invoice: nat, orders: seq<nat>): Books
    requires forall i :: 0 <= i < |orders| ==> orders[i] < |s.orders|
    ensures |BillOrders(s, invoice, orders).orders| == |s.orders|
    decreases orders
  {
    if orders == [] then s else BillOrders(BillOrder(s, invoice, orders[0]), invoice, orders[1..])
  }

  ghost predicate InRange(s: Books, groups: seq<Group>)
  {
    forall g, i :: 0 <= g < |groups| && 0 <= i < |groups[g].orders| ==> groups[g].orders[i] < |s.orders|
  }

  function BillGroup(s: Books, run: nat, g: Group): Books
    requires forall i :: 0 <= i < |g.orders| ==> g.orders[i] < |s.orders|
    ensures |BillGroup(s, run, g).orders| == |s.orders|
  {
    if g.partner !in s.affiliates then s
    else BillOrders(NewInvoice(s, run, s.affiliates[g.partner]), |s.invoices|, g.orders)
  }

  function BillGroups(s: Books, run: nat, groups: seq<Group>): Books
    requires InRange(s, groups)
    decreases groups
  {
    if groups == [] then s
    else
      assert forall i :: 0 <= i < |groups[0].orders| ==> groups[0].orders[i] < |s.orders|;
      BillGroups(BillGroup(s, run, groups[0]), run, groups[1..])
  }

  function SetStatus(s: Books, run: nat, status: RunStatus): Books
    requires run < |s.runs|
  {
    s.(runs := s.runs[run := s.runs[run].(status := status)])
  }

  lemma {:induction false} AddKeepsRange(s: Books, groups: seq<Group>, partner: nat, order: nat)
    requires InRange(s, groups) && order < |s.orders|
    ensures InRange(s, AddToGroups(groups, partner, order))
  {
    if groups != [] && groups[0].partner != partner {
      assert InRange(s, groups[1..]);
      AddKeepsRange(s, groups[1..], partner, order);
    }
  }

  lemma {:induction false} GroupsInRange(s: Books, run: BillingRun, o: nat, groups: seq<Group>)
    requires o <= |s.orders| && InRange(s, groups)
    ensures InRange(s, GroupOrders(s, run, o, groups))
    decreases |s.orders| - o
  {
    if o < |s.orders| {
      var order := s.orders[o];
      if Eligible(order, run) && order.partner.Some? {
        AddKeepsRange(s, groups, order.partner.value, o);
        GroupsInRange(s, run, o + 1, AddToGroups(groups, order.partner.value, o));
      } else {
        GroupsInRange(s, run, o + 1, groups);
      }
    }
  }

  function Generate(s: Books, run: nat): Result<Books, Refusal>
  {
    if run >= |s.runs| then Err(NoSuchRun)
    else if s.runs[run].status != Draft then Err(NotDraft)
    else
      var t := SetStatus(s, run, Processing);
      var groups := GroupOrders(t, t.runs[run], 0, []);
      GroupsInRange(t, t.runs[run], 0, []);
      var u := BillGroups(t, run, groups);
      BillGroupsFrame(t, run, groups);
      Ok(SetStatus(u, run, Completed))
  }

  // ---------------------------------------------------------------- what billing does to the books

  ghost predicate SameFrame(s: Books, t: Books)
  {
    t.runs == s.runs && t.affiliates == s.affiliates && t.journal == s.journal && |t.orders| == |s.orders|
  }

  lemma {:induction false} BillOrdersFrame(s: Books, invoice: nat, orders: seq<nat>)
    requires forall i :: 0 <= i < |orders| ==> orders[i] < |s.orders|
    ensures SameFrame(s, BillOrders(s, invoice, orders))
    ensures BillOrders(s, invoice, orders).invoices == s.invoices
    decreases orders
  {
    if orders != [] { BillOrdersFrame(BillOrder(s, invoice, orders[0]), invoice, orders[1..]); }
  }

  lemma BillGroupFrame(s: Books, run: nat, g: Group)
    requires forall i :: 0 <= i < |g.orders| ==> g.orders[i] < |s.orders|
    ensures SameFrame(s, BillGroup(s, run, g))
  {
    if g.partner in s.affiliates {
      BillOrdersFrame(NewInvoice(s, run, s.affiliates[g.partner]), |s.invoices|, g.orders);
    }
  }

  lemma {:induction false} BillGroupsFrame(s: Books, run: nat, groups: seq<Group>)
    requires InRange(s, groups)
    ensures SameFrame(s, BillGroups(s, run, groups))
    decreases groups
  {
    if groups != [] {
      BillGroupFrame(s, run, groups[0]);
      BillGroupsFrame(BillGroup(s, run, groups[0]), run, groups[1..]);
    }
  }

  // ---------------------------------------------------------------- the other actions

  /** Clearing the billed flag of every order on the run's lines. */
  function Unbill(s: Books, run: nat, l: nat): Books
    requires l <= |s.lines|
    decreases |s.lines| - l
  {
    if l == |s.lines| then s
    else
      var line := s.lines[l];
      Unbill(if line.invoice < |s.invoices| && s.invoices[line.invoice].run == run && line.order < |s.orders|
             then s.(orders := s.orders[line.order := s.orders[line.order].(billed := false, invoice := None)])
             else s,
             run, l + 1)
  }

  function Cancel(s: Books, run: nat): Result<Books, Refusal>
  {
    if run >= |s.runs| then Err(NoSuchRun)
    else if s.runs[run].status != Draft && s.runs[run].status != Processing then Err(NotOpen)
    else Ok(Unbill(s, run, 0).(runs := s.runs[run := s.runs[run].(status := Cancelled)]))
  }

  function BackToDraft(s: Books, run: nat): Result<Books, Refusal>
  {
    if run >= |s.runs| then Err(NoSuchRun)
    else if s.runs[run].status != Cancelled then Err(NotCancelled)
    else Ok(SetStatus(s, run, Draft))
  }

  function LineAmounts(lines: seq<BillingLine>, invoice: nat): seq<int>
  {
    if lines == [] then []
    else (if lines[0].invoice == invoice then [lines[0].amount] else []) + LineAmounts(lines[1..], invoice)
  }

  /** Creating one journal invoice: it can raise before or after the move exists. */
  datatype Creation = Created | RaisedBefore | RaisedAfter

  function CreateInvoice(s: Books, v: nat, outcome: Creation): Books
    requires v < |s.invoices|
  {
    var prices := LineAmounts(s.lines, v);
    if s.invoices[v].status != Pending || prices == [] then s
    else
      var moved := s.(journal := s.journal + [JournalInvoice(v, prices)]);
      match outcome
      case RaisedBefore => s.(invoices := s.invoices[v := s.invoices[v].(status := InError)])
      case RaisedAfter => moved.(invoices := s.invoices[v := s.invoices[v].(status := InError)])
      case Created =>
        moved.(invoices := s.invoices[v := s.invoices[v].(status := Invoiced, journal := Some(|s.journal|))])
  }

  function CreateInvoices(s: Books, run: nat, v: nat, outcome: nat -> Creation): Books
    requires v <= |s.invoices|
    decreases |s.invoices| - v
  {
    if v == |s.invoices| then s
    else CreateInvoices(if s.invoices[v].run == run then CreateInvoice(s, v, outcome(v)) else s, run, v + 1, outcome)
  }

  datatype Action =
    | NewOrder(partner: Option<nat>, payments: seq<Payment>, date: int, settled: bool)
    | SettleOrder(order: nat)
    | NewRun(first: int, last: int)
    | GenerateRun(run: nat)
    | CreateJournal(run: nat, outcome: nat -> Creation)
    | CancelRun(run: nat)
    | DraftRun(run: nat)

  function Commit(s: Books, r: Result<Books, Refusal>): Books
  {
    match r
    case Ok(t) => t
    case Err(_) => s
  }

  function Step(s: Books, act: Action): Books
  {
    match act
    case NewOrder(partner, payments, date, settled) =>
      s.(orders := s.orders + [Order(partner, payments, date, settled, false, None)])
    case SettleOrder(o) =>
      if o < |s.orders| then s.(orders := s.orders[o := s.orders[o].(settled := true)]) else s
    case NewRun(first, last) => s.(runs := s.runs + [BillingRun(first, last, Draft)])
    case GenerateRun(run) => Commit(s, Generate(s, run))
    case CreateJournal(run, outcome) => CreateInvoices(s, run, 0, outcome)
    case CancelRun(run) => Commit(s, Cancel(s, run))
    case DraftRun(run) => Commit(s, BackToDraft(s, run))
  }

  function Run(s: Books, acts: seq<Action>): Books
    decreases acts
  {
    if acts == [] then s else Run(Step(s, acts[0]), acts[1..])
  }

  function Opening(affiliates: map<nat, nat>): Books { Books(affiliates, [], [], [], [], []) }

  // ---------------------------------------------------------------- invariant

  /** Each line bills its own order, on the invoice of the order's affiliate, for its cargo payments. */
  ghost predicate LinesOk(s: Books)
  {
    && (forall i :: 0 <= i < |s.lines| ==> LineOk(s, s.lines[i]))
    && (forall i, j :: 0 <= i < j < |s.lines| ==> s.lines[i].order != s.lines[j].order)
  }

  ghost predicate LineOk(s: Books, l: BillingLine)
  {
    && l.invoice < |s.invoices| && l.order < |s.orders|
    && s.orders[l.order].billed && s.orders[l.order].invoice == Some(l.invoice)
    && l.amount == Cargo(s.orders[l.order].payments)
    && s.orders[l.order].partner.Some? && s.orders[l.order].partner.value in s.affiliates
    && s.affiliates[s.orders[l.order].partner.value] == s.invoices[l.invoice].affiliate
  }

  ghost predicate FlagsOk(s: Books)
  {
    forall o :: 0 <= o < |s.orders| && s.orders[o].billed ==> exists i :: 0 <= i < |s.lines| && s.lines[i].order == o
  }

  /** Invoices exist only for completed runs, or for the run being generated. */
  ghost predicate RunsOk(s: Books, open: Option<nat>)
  {
    forall v :: 0 <= v < |s.invoices| ==>
      && s.invoices[v].run < |s.runs|
      && (s.runs[s.invoices[v].run].status == Completed || open == Some(s.invoices[v].run))
  }

  /** At most one journal invoice per billing invoice, none while it is pending, each for the
      amounts of the billing lines. */
  ghost predicate JournalOk(s: Books)
  {
    && (forall j :: 0 <= j < |s.journal| ==> JournalEntryOk(s, s.journal[j]))
    && (forall i, j :: 0 <= i < j < |s.journal| ==> s.journal[i].origin != s.journal[j].origin)
    && (forall v :: 0 <= v < |s.invoices| && s.invoices[v].status == Invoiced ==>
          s.invoices[v].journal.Some? && s.invoices[v].journal.value < |s.journal|
          && s.journal[s.invoices[v].journal.value].origin == v)
  }

  ghost predicate JournalEntryOk(s: Books, j: JournalInvoice)
  {
    && j.origin < |s.invoices| && s.invoices[j.origin].status != Pending
    && j.prices == LineAmounts(s.lines, j.origin)
  }

  ghost predicate Inv(s: Books, open: Option<nat>)
  {
    LinesOk(s) && FlagsOk(s) && RunsOk(s, open) && JournalOk(s)
  }

  lemma {:induction false} LineAmountsAppend(lines: seq<BillingLine>, l: BillingLine, v: nat)
    ensures LineAmounts(lines + [l], v) == LineAmounts(lines, v) + (if l.invoice == v then [l.amount] else [])
  {
    if lines == [] {
      assert lines + [l] == [l];
    } else {
      var head: seq<int> := if lines[0].invoice == v then [lines[0].amount] else [];
      var last: seq<int> := if l.invoice == v then [l.amount] else [];
      assert (lines + [l])[1..] == lines[1..] + [l];
      LineAmountsAppend(lines[1..], l, v);
      assert head + (LineAmounts(lines[1..], v) + last) == head + LineAmounts(lines[1..], v) + last;
    }
  }

  // ---------------------------------------------------------------- billing one order

  lemma BillOrderKeeps(s: Books, v: nat, o: nat, open: Option<nat>)
    requires Inv(s, open)
    requires v < |s.invoices| && o < |s.orders| && !s.orders[o].billed
    requires s.invoices[v].status == Pending
    requires s.orders[o].partner.Some? && s.orders[o].partner.value in s.affiliates
    requires s.affiliates[s.orders[o].partner.value] == s.invoices[v].affiliate
    ensures Inv(BillOrder(s, v, o), open)
  {
    hide Cargo;
    var t := BillOrder(s, v, o);
    var l := BillingLine(v, o, Cargo(s.orders[o].payments));
    assert LinesOk(t) by {
      forall i | 0 <= i < |s.lines| ensures s.lines[i].order != o && LineOk(t, s.lines[i]) {
        assert LineOk(s, s.lines[i]);
      }
      assert LineOk(t, l);
    }
    assert FlagsOk(t) by {
      forall k | 0 <= k < |t.orders| && t.orders[k].billed
        ensures exists i :: 0 <= i < |t.lines| && t.lines[i].order == k
      {
        if k == o {
          assert t.lines[|s.lines|].order == o;
        } else {
          var i :| 0 <= i < |s.lines| && s.lines[i].order == k;
          assert t.lines[i].order == k;
        }
      }
    }
    assert JournalOk(t) by {
      forall j | 0 <= j < |s.journal| ensures JournalEntryOk(t, s.journal[j]) {
        assert JournalEntryOk(s, s.journal[j]);
        LineAmountsAppend(s.lines, l, s.journal[j].origin);
      }
    }
  }

  lemma NewInvoiceKeeps(s: Books, run: nat, affiliate: nat)
    requires Inv(s, Some(run)) && run < |s.runs|
    ensures Inv(NewInvoice(s, run, affiliate), Some(run))
  {
    var t := NewInvoice(s, run, affiliate);
    assert LinesOk(t) by {
      forall i | 0 <= i < |s.lines| ensures LineOk(t, s.lines[i]) { assert LineOk(s, s.lines[i]); }
    }
    assert JournalOk(t) by {
      forall j | 0 <= j < |s.journal| ensures JournalEntryOk(t, s.journal[j]) {
        assert JournalEntryOk(s, s.journal[j]);
      }
    }
  }

  /** Orders that can be put on one invoice: unbilled, distinct, of the invoice's affiliate. */
  ghost predicate Ready(s: Books, affiliate: nat, orders: seq<nat>)
  {
    && (forall i :: 0 <= i < |orders| ==>
          && orders[i] < |s.orders| && !s.orders[orders[i]].billed
          && s.orders[orders[i]].partner.Some? && s.orders[orders[i]].partner.value in s.affiliates
          && s.affiliates[s.orders[orders[i]].partner.value] == affiliate)
    && (forall i, j :: 0 <= i < j < |orders| ==> orders[i] != orders[j])
  }

  lemma {:induction false} BillOrdersKeeps(s: Books, v: nat, orders: seq<nat>, open: Option<nat>)
    requires Inv(s, open) && v < |s.invoices| && s.invoices[v].status == Pending
    requires Ready(s, s.invoices[v].affiliate, orders)
    ensures Inv(BillOrders(s, v, orders), open)
    ensures forall o :: 0 <= o < |s.orders| ==>
      BillOrders(s, v, orders).orders[o] ==
        if o in orders then s.orders[o].(billed := true, invoice := Some(v)) else s.orders[o]
    decreases orders
  {
    if orders != [] {
      hide Inv;
      BillOrderKeeps(s, v, orders[0], open);
      var t := BillOrder(s, v, orders[0]);
      assert Ready(t, t.invoices[v].affiliate, orders[1..]);
      BillOrdersKeeps(t, v, orders[1..], open);
      assert forall o :: o in orders <==> o == orders[0] || o in orders[1..];
    }
  }

  // ---------------------------------------------------------------- groups

  /** One group per partner, holding distinct unbilled orders of that partner. */
  ghost predicate GroupsOk(s: Books, groups: seq<Group>)
  {
    && (forall g :: 0 <= g < |groups| ==> GroupOk(s, groups[g]))
    && (forall g, h :: 0 <= g < h < |groups| ==> groups[g].partner != groups[h].partner)
  }

  ghost predicate GroupOk(s: Books, g: Group)
  {
    && (forall i :: 0 <= i < |g.orders| ==>
          && g.orders[i] < |s.orders| && !s.orders[g.orders[i]].billed
          && s.orders[g.orders[i]].partner == Some(g.partner))
    && (forall i, j :: 0 <= i < j < |g.orders| ==> g.orders[i] != g.orders[j])
  }

  ghost predicate Grouped(groups: seq<Group>, o: nat)
  {
    exists g :: 0 <= g < |groups| && o in groups[g].orders
  }

  /** The new order joins the group of its partner, or a new group at the end. */
  lemma {:induction false} AddToGroupsWhere(groups: seq<Group>, partner: nat, order: nat) returns (k: nat)
    ensures k <= |groups|
    ensures k < |groups| ==>
      && groups[k].partner == partner
      && AddToGroups(groups, partner, order) == groups[k := groups[k].(orders := groups[k].orders + [order])]
    ensures k == |groups| ==>
      && AddToGroups(groups, partner, order) == groups + [Group(partner, [order])]
      && forall g :: 0 <= g < |groups| ==> groups[g].partner != partner
  {
    if groups == [] || groups[0].partner == partner {
      k := 0;
    } else {
      var j := AddToGroupsWhere(groups[1..], partner, order);
      k := j + 1;
    }
  }

  lemma JoinGroup(s: Books, g: Group, order: nat)
    requires GroupOk(s, g) && order !in g.orders
    requires order < |s.orders| && !s.orders[order].billed && s.orders[order].partner == Some(g.partner)
    ensures GroupOk(s, g.(orders := g.orders + [order]))
  {}

  lemma ReplaceGroup(s: Books, groups: seq<Group>, k: nat, g: Group)
    requires GroupsOk(s, groups) && k < |groups| && GroupOk(s, g) && g.partner == groups[k].partner
    ensures GroupsOk(s, groups[k := g])
  {
    hide GroupOk;
  }

  lemma AppendGroup(s: Books, groups: seq<Group>, g: Group)
    requires GroupsOk(s, groups) && GroupOk(s, g)
    requires forall h :: 0 <= h < |groups| ==> groups[h].partner != g.partner
    ensures GroupsOk(s, groups + [g])
  {
    hide GroupOk;
  }

  lemma NotGrouped(groups: seq<Group>, k: nat, order: nat)
    requires !Grouped(groups, order) && k < |groups|
    ensures order !in groups[k].orders
  {}

  lemma FirstOfGroup(s: Books, partner: nat, order: nat)
    requires order < |s.orders| && !s.orders[order].billed && s.orders[order].partner == Some(partner)
    ensures GroupOk(s, Group(partner, [order]))
  {}

  lemma AddKeepsGroups(s: Books, groups: seq<Group>, partner: nat, order: nat)
    requires GroupsOk(s, groups) && order < |s.orders| && !s.orders[order].billed
    requires s.orders[order].partner == Some(partner) && !Grouped(groups, order)
    ensures GroupsOk(s, AddToGroups(groups, partner, order))
    ensures forall o :: Grouped(AddToGroups(groups, partner, order), o) <==> o == order || Grouped(groups, o)
  {
    hide GroupOk, AddToGroups, Grouped;
    var k := AddToGroupsWhere(groups, partner, order);
    var after := AddToGroups(groups, partner, order);
    if k < |groups| {
      NotGrouped(groups, k, order);
      JoinGroup(s, groups[k], order);
      ReplaceGroup(s, groups, k, groups[k].(orders := groups[k].orders + [order]));
    } else {
      FirstOfGroup(s, partner, order);
      AppendGroup(s, groups, Group(partner, [order]));
    }
    hide GroupsOk;
    forall o: nat ensures Grouped(after, o) <==> o == order || Grouped(groups, o) {
      GroupedAfterAdd(groups, after, k, partner, order, o);
    }
  }

  lemma GroupedAfterAdd(groups: seq<Group>, after: seq<Group>, k: nat, partner: nat, order: nat, o: nat)
    requires k <= |groups|
    requires k < |groups| ==> after == groups[k := groups[k].(orders := groups[k].orders + [order])]
    requires k == |groups| ==> after == groups + [Group(partner, [order])]
    ensures Grouped(after, o) <==> o == order || Grouped(groups, o)
  {
    if Grouped(groups, o) {
      var g :| 0 <= g < |groups| && o in groups[g].orders;
      assert o in after[g].orders;
    }
    if o == order {
      assert order in after[k].orders;
    }
    if Grouped(after, o) && o != order {
      var g :| 0 <= g < |after| && o in after[g].orders;
      assert o in groups[g].orders;
    }
  }

  lemma {:induction false} GroupOrdersOk(s: Books, run: BillingRun, o: nat, groups: seq<Group>)
    requires o <= |s.orders| && GroupsOk(s, groups)
    requires forall k: nat :: Grouped(groups, k) ==> k < o
    ensures GroupsOk(s, GroupOrders(s, run, o, groups))
    ensures forall k: nat :: Grouped(GroupOrders(s, run, o, groups), k) <==>
      Grouped(groups, k) || (o <= k < |s.orders| && Eligible(s.orders[k], run) && s.orders[k].partner.Some?)
    decreases |s.orders| - o
  {
    hide Grouped, GroupsOk, AddToGroups;
    if o < |s.orders| {
      var order := s.orders[o];
      if Eligible(order, run) && order.partner.Some? {
        AddKeepsGroups(s, groups, order.partner.value, o);
        GroupOrdersOk(s, run, o + 1, AddToGroups(groups, order.partner.value, o));
      } else {
        GroupOrdersOk(s, run, o + 1, groups);
      }
    }
  }

  /** After billing the first group, the other groups are as good as before. */
  lemma RestGroupsOk(s: Books, t: Books, groups: seq<Group>)
    requires GroupsOk(s, groups) && groups != [] && |t.orders| == |s.orders|
    requires forall o :: 0 <= o < |s.orders| && o !in groups[0].orders ==> t.orders[o] == s.orders[o]
    ensures GroupsOk(t, groups[1..])
  {
    var rest := groups[1..];
    assert GroupOk(s, groups[0]);
    forall g | 0 <= g < |rest| ensures GroupOk(t, rest[g]) {
      assert rest[g] == groups[g + 1];
      assert GroupOk(s, groups[g + 1]) && groups[0].partner != groups[g + 1].partner;
      assert forall i :: 0 <= i < |rest[g].orders| ==> rest[g].orders[i] !in groups[0].orders;
    }
  }

  predicate Billable(o: Order, affiliates: map<nat, nat>) { o.partner.Some? && o.partner.value in affiliates }

  lemma BillGroupKeeps(s: Books, run: nat, groups: seq<Group>)
    requires Inv(s, Some(run)) && run < |s.runs| && GroupsOk(s, groups) && groups != [] && InRange(s, groups)
    ensures var t := BillGroup(s, run, groups[0]);
      && Inv(t, Some(run)) && SameFrame(s, t) && GroupsOk(t, groups[1..])
      && (forall o :: 0 <= o < |s.orders| ==>
            && t.orders[o].partner == s.orders[o].partner
            && (t.orders[o].billed <==>
                  s.orders[o].billed || (o in groups[0].orders && Billable(s.orders[o], s.affiliates))))
  {
    var g := groups[0];
    BillGroupFrame(s, run, g);
    assert GroupOk(s, g);
    if g.partner in s.affiliates {
      hide Inv, GroupsOk;
      var affiliate := s.affiliates[g.partner];
      NewInvoiceKeeps(s, run, affiliate);
      assert Ready(s, affiliate, g.orders);
      var n := NewInvoice(s, run, affiliate);
      ReadyAfterInvoice(s, run, affiliate, g.orders);
      BillOrdersKeeps(n, |s.invoices|, g.orders, Some(run));
      RestGroupsOk(s, BillGroup(s, run, g), groups);
    } else {
      RestGroupsOk(s, s, groups);
    }
  }

  lemma ReadyAfterInvoice(s: Books, run: nat, affiliate: nat, orders: seq<nat>)
    requires Ready(s, affiliate, orders)
    ensures Ready(NewInvoice(s, run, affiliate), affiliate, orders)
  {
  }

  lemma {:induction false} BillGroupsKeeps(s: Books, run: nat, groups: seq<Group>)
    requires Inv(s, Some(run)) && run < |s.runs| && GroupsOk(s, groups) && InRange(s, groups)
    ensures var t := BillGroups(s, run, groups);
      && Inv(t, Some(run)) && SameFrame(s, t)
      && (forall o :: 0 <= o < |s.orders| ==>
            && t.orders[o].partner == s.orders[o].partner
            && (t.orders[o].billed <==>
                  s.orders[o].billed || (Grouped(groups, o) && Billable(s.orders[o], s.affiliates))))
    decreases groups
  {
    if groups != [] {
      hide Inv, GroupsOk;
      BillGroupKeeps(s, run, groups);
      var t := BillGroup(s, run, groups[0]);
      BillGroupsKeeps(t, run, groups[1..]);
      forall o ensures Grouped(groups, o) <==> o in groups[0].orders || Grouped(groups[1..], o) {
        GroupedSplit(groups, o);
      }
    }
  }

  lemma GroupedSplit(groups: seq<Group>, o: nat)
    requires groups != []
    ensures Grouped(groups, o) <==> o in groups[0].orders || Grouped(groups[1..], o)
  {
    if Grouped(groups[1..], o) {
      var g :| 0 <= g < |groups| - 1 && o in groups[1..][g].orders;
      assert o in groups[g + 1].orders;
    }
    if Grouped(groups, o) {
      var g :| 0 <= g < |groups| && o in groups[g].orders;
      assert g > 0 ==> groups[1..][g - 1] == groups[g];
    }
  }

  lemma StatusKeeps(s: Books, run: nat, status: RunStatus, before: Option<nat>, after: Option<nat>)
    requires Inv(s, before) && run < |s.runs|
    requires RunsOk(SetStatus(s, run, status), after)
    ensures Inv(SetStatus(s, run, status), after)
  {
    var t := SetStatus(s, run, status);
    assert LinesOk(t) by {
      forall i | 0 <= i < |s.lines| ensures LineOk(t, s.lines[i]) { assert LineOk(s, s.lines[i]); }
    }
    assert JournalOk(t) by {
      forall j | 0 <= j < |s.journal| ensures JournalEntryOk(t, s.journal[j]) {
        assert JournalEntryOk(s, s.journal[j]);
      }
    }
  }

  /** Generating a run keeps the books in order and bills exactly the eligible orders of the
      period whose partner has an affiliate. */
  lemma GenerateKeeps(s: Books, run: nat)
    requires Inv(s, None) && Generate(s, run).Ok?
    ensures var t := Generate(s, run).value;
      && Inv(t, None) && |t.orders| == |s.orders|
      && |t.runs| == |s.runs| && run < |t.runs| && t.runs[run].status == Completed
      && (forall o :: 0 <= o < |s.orders| ==>
            (t.orders[o].billed <==>
              s.orders[o].billed || (Eligible(s.orders[o], s.runs[run]) && Billable(s.orders[o], s.affiliates))))
  {
    hide GroupsOk, Eligible, LinesOk, FlagsOk, JournalOk;
    var p := SetStatus(s, run, Processing);
    assert RunsOk(p, Some(run));
    StatusKeeps(s, run, Processing, None, Some(run));
    GroupOrdersStart(p, p.runs[run]);
    var groups := GroupOrders(p, p.runs[run], 0, []);
    GroupsInRange(p, p.runs[run], 0, []);
    BillGroupsKeeps(p, run, groups);
    var u := BillGroups(p, run, groups);
    assert RunsOk(SetStatus(u, run, Completed), None);
    StatusKeeps(u, run, Completed, Some(run), None);
    forall o | 0 <= o < |s.orders|
      ensures Eligible(s.orders[o], p.runs[run]) == Eligible(s.orders[o], s.runs[run])
    {
      EligibleByPeriod(s.orders[o], p.runs[run], s.runs[run]);
    }
  }

  lemma EligibleByPeriod(o: Order, r: BillingRun, q: BillingRun)
    requires r.first == q.first && r.last == q.last
    ensures Eligible(o, r) == Eligible(o, q)
  {
  }

  lemma GroupOrdersStart(s: Books, run: BillingRun)
    ensures GroupsOk(s, GroupOrders(s, run, 0, []))
    ensures forall k: nat :: Grouped(GroupOrders(s, run, 0, []), k) <==>
      0 <= k < |s.orders| && Eligible(s.orders[k], run) && s.orders[k].partner.Some?
  {
    hide Eligible;
    assert GroupsOk(s, []);
    assert forall k :: !Grouped([], k);
    GroupOrdersOk(s, run, 0, []);
  }

  // ---------------------------------------------------------------- cancelling and invoicing

  lemma {:induction false} NothingToUnbill(s: Books, run: nat, l: nat)
    requires LinesOk(s) && l <= |s.lines|
    requires forall v :: 0 <= v < |s.invoices| ==> s.invoices[v].run != run
    ensures Unbill(s, run, l) == s
    decreases |s.lines| - l
  {
    if l < |s.lines| {
      assert LineOk(s, s.lines[l]);
      NothingToUnbill(s, run, l + 1);
    }
  }

  /** A run that can still be cancelled has no invoices, so cancelling it unbills nothing and
      changes nothing but its status. */
  lemma CancelKeeps(s: Books, run: nat)
    requires Inv(s, None) && Cancel(s, run).Ok?
    ensures Inv(Cancel(s, run).value, None)
    ensures forall v :: 0 <= v < |s.invoices| ==> s.invoices[v].run != run
    ensures run < |s.runs| && Cancel(s, run).value == SetStatus(s, run, Cancelled)
  {
    NothingToUnbill(s, run, 0);
    assert RunsOk(SetStatus(s, run, Cancelled), None);
    StatusKeeps(s, run, Cancelled, None, None);
  }

  /** What the creation of a journal invoice leaves alone. */
  lemma CreateInvoiceFrame(s: Books, v: nat, outcome: Creation)
    requires v < |s.invoices|
    ensures var t := CreateInvoice(s, v, outcome);
      && t.lines == s.lines && t.orders == s.orders && t.runs == s.runs && t.affiliates == s.affiliates
      && |t.invoices| == |s.invoices| && |s.journal| <= |t.journal| && t.journal[..|s.journal|] == s.journal
      && (forall i :: 0 <= i < |s.invoices| ==>
            && t.invoices[i].run == s.invoices[i].run && t.invoices[i].affiliate == s.invoices[i].affiliate
            && (i != v ==> t.invoices[i] == s.invoices[i])
            && (s.invoices[i].status != Pending ==> t.invoices[i] == s.invoices[i]))
  {
    hide LineAmounts;
  }

  lemma CreateInvoiceJournal(s: Books, v: nat, outcome: Creation)
    requires JournalOk(s) && v < |s.invoices|
    ensures JournalOk(CreateInvoice(s, v, outcome))
  {
    CreateInvoiceFrame(s, v, outcome);
    hide LineAmounts;
    var t := CreateInvoice(s, v, outcome);
    forall j | 0 <= j < |s.journal|
      ensures t.journal[j] == s.journal[j] && JournalEntryOk(s, s.journal[j]) && JournalEntryOk(t, t.journal[j])
    {
      assert t.journal[j] == t.journal[..|s.journal|][j];
    }
  }

  lemma CreateInvoiceKeeps(s: Books, v: nat, outcome: Creation)
    requires Inv(s, None) && v < |s.invoices|
    ensures Inv(CreateInvoice(s, v, outcome), None)
    ensures |CreateInvoice(s, v, outcome).invoices| == |s.invoices|
  {
    CreateInvoiceFrame(s, v, outcome);
    CreateInvoiceJournal(s, v, outcome);
    hide Cargo, CreateInvoice, JournalOk;
    var t := CreateInvoice(s, v, outcome);
    forall i | 0 <= i < |s.lines| ensures LineOk(t, s.lines[i]) { assert LineOk(s, s.lines[i]); }
  }

  lemma {:induction false} CreateInvoicesKeeps(s: Books, run: nat, v: nat, outcome: nat -> Creation)
    requires Inv(s, None) && v <= |s.invoices|
    ensures Inv(CreateInvoices(s, run, v, outcome), None)
    decreases |s.invoices| - v
  {
    hide Inv, CreateInvoice;
    if v < |s.invoices| {
      CreateInvoiceKeeps(s, v, outcome(v));
      CreateInvoicesKeeps(if s.invoices[v].run == run then CreateInvoice(s, v, outcome(v)) else s, run, v + 1, outcome);
    }
  }

  lemma NewOrderKeeps(s: Books, o: Order)
    requires Inv(s, None) && !o.billed
    ensures Inv(s.(orders := s.orders + [o]), None)
  {
    var t := s.(orders := s.orders + [o]);
    assert LinesOk(t) by {
      forall i | 0 <= i < |s.lines| ensures LineOk(t, s.lines[i]) { assert LineOk(s, s.lines[i]); }
    }
    assert JournalOk(t) by {
      forall j | 0 <= j < |s.journal| ensures JournalEntryOk(t, s.journal[j]) {
        assert JournalEntryOk(s, s.journal[j]);
      }
    }
  }

  lemma SettleKeeps(s: Books, o: nat)
    requires Inv(s, None) && o < |s.orders|
    ensures Inv(Step(s, SettleOrder(o)), None)
  {
    hide Cargo;
    var t := Step(s, SettleOrder(o));
    forall i | 0 <= i < |s.lines| ensures LineOk(t, s.lines[i]) { assert LineOk(s, s.lines[i]); }
    forall j | 0 <= j < |s.journal| ensures JournalEntryOk(t, s.journal[j]) { assert JournalEntryOk(s, s.journal[j]); }
  }

  lemma NewRunKeeps(s: Books, r: BillingRun)
    requires Inv(s, None)
    ensures Inv(s.(runs := s.runs + [r]), None)
  {
    var t := s.(runs := s.runs + [r]);
    assert LinesOk(t) by {
      forall i | 0 <= i < |s.lines| ensures LineOk(t, s.lines[i]) { assert LineOk(s, s.lines[i]); }
    }
    assert JournalOk(t) by {
      forall j | 0 <= j < |s.journal| ensures JournalEntryOk(t, s.journal[j]) {
        assert JournalEntryOk(s, s.journal[j]);
      }
    }
  }

  lemma StepKeeps(s: Books, act: Action)
    requires Inv(s, None)
    ensures Inv(Step(s, act), None)
  {
    match act
    case NewOrder(partner, payments, date, settled) =>
      NewOrderKeeps(s, Order(partner, payments, date, settled, false, None));
    case SettleOrder(o) => if o < |s.orders| { SettleKeeps(s, o); }
    case NewRun(first, last) => NewRunKeeps(s, BillingRun(first, last, Draft));
    case GenerateRun(run) => if Generate(s, run).Ok? { GenerateKeeps(s, run); }
    case CreateJournal(run, outcome) => CreateInvoicesKeeps(s, run, 0, outcome);
    case CancelRun(run) => if Cancel(s, run).Ok? { CancelKeeps(s, run); }
    case DraftRun(run) =>
      if BackToDraft(s, run).Ok? {
        assert RunsOk(SetStatus(s, run, Draft), None);
        StatusKeeps(s, run, Draft, None, None);
      }
  }

  lemma {:induction false} RunKeeps(s: Books, acts: seq<Action>)
    requires Inv(s, None)
    ensures Inv(Run(s, acts), None)
    decreases acts
  {
    if acts != [] {
      StepKeeps(s, acts[0]);
      RunKeeps(Step(s, acts[0]), acts[1..]);
    }
  }

  // ---------------------------------------------------------------- which orders a run bills

  /** What the search of a run asks of an order, in the order's own fields. */
  ghost predicate Belongs(o: Order, run: BillingRun)
  {
    && run.first <= o.date && o.date <= run.last
    && o.settled
    && exists i :: 0 <= i < |o.payments| && o.payments[i].cargo
  }

  ghost predicate InPeriod(s: Books)
  {
    forall i :: 0 <= i < |s.lines| ==> LineInPeriod(s, s.lines[i])
  }

  /** The line's order belongs to the run of the line's invoice. */
  ghost predicate LineInPeriod(s: Books, l: BillingLine)
  {
    && l.invoice < |s.invoices| && l.order < |s.orders| && s.invoices[l.invoice].run < |s.runs|
    && Belongs(s.orders[l.order], s.runs[s.invoices[l.invoice].run])
  }

  /** Nothing that the search looks at has changed, except that orders may have been settled. */
  ghost predicate Later(s: Books, t: Books)
  {
    && |s.orders| <= |t.orders| && |s.runs| <= |t.runs| && |s.invoices| <= |t.invoices|
    && (forall o :: 0 <= o < |s.orders| ==>
          && t.orders[o].date == s.orders[o].date && t.orders[o].payments == s.orders[o].payments
          && (s.orders[o].settled ==> t.orders[o].settled))
    && (forall r :: 0 <= r < |s.runs| ==> t.runs[r].first == s.runs[r].first && t.runs[r].last == s.runs[r].last)
    && (forall v :: 0 <= v < |s.invoices| ==> t.invoices[v].run == s.invoices[v].run)
  }

  lemma LaterKeeps(s: Books, t: Books)
    requires InPeriod(s) && Later(s, t) && t.lines == s.lines
    ensures InPeriod(t)
  {
    forall i | 0 <= i < |t.lines| ensures LineInPeriod(t, t.lines[i]) { assert LineInPeriod(s, s.lines[i]); }
  }

  lemma BillOrderPeriod(s: Books, v: nat, o: nat)
    requires InPeriod(s) && o < |s.orders| && v < |s.invoices| && s.invoices[v].run < |s.runs|
    requires Belongs(s.orders[o], s.runs[s.invoices[v].run])
    ensures InPeriod(BillOrder(s, v, o)) && Later(s, BillOrder(s, v, o))
  {
    hide Cargo;
    var t := BillOrder(s, v, o);
    forall i | 0 <= i < |t.lines| ensures LineInPeriod(t, t.lines[i]) {
      if i < |s.lines| { assert LineInPeriod(s, s.lines[i]); }
    }
  }

  lemma LaterBelongs(s: Books, t: Books, o: nat, r: nat)
    requires Later(s, t) && o < |s.orders| && r < |s.runs| && Belongs(s.orders[o], s.runs[r])
    ensures Belongs(t.orders[o], t.runs[r])
  {}

  lemma LaterTrans(s: Books, t: Books, u: Books)
    requires Later(s, t) && Later(t, u)
    ensures Later(s, u)
  {}

  lemma {:induction false} BillOrdersPeriod(s: Books, v: nat, orders: seq<nat>)
    requires InPeriod(s) && v < |s.invoices| && s.invoices[v].run < |s.runs|
    requires forall i :: 0 <= i < |orders| ==>
      orders[i] < |s.orders| && Belongs(s.orders[orders[i]], s.runs[s.invoices[v].run])
    ensures InPeriod(BillOrders(s, v, orders)) && Later(s, BillOrders(s, v, orders))
    decreases orders
  {
    if orders != [] {
      hide InPeriod, Belongs, Cargo;
      BillOrderPeriod(s, v, orders[0]);
      var t := BillOrder(s, v, orders[0]);
      forall i | 0 < i < |orders| ensures Belongs(t.orders[orders[i]], t.runs[t.invoices[v].run]) {
        LaterBelongs(s, t, orders[i], s.invoices[v].run);
      }
      BillOrdersPeriod(t, v, orders[1..]);
      LaterTrans(s, t, BillOrders(t, v, orders[1..]));
    }
  }

  /** Every order of the groups belongs to the run. */
  ghost predicate GroupsBelong(s: Books, run: nat, groups: seq<Group>)
  {
    run < |s.runs| && forall o: nat :: Grouped(groups, o) ==> o < |s.orders| && Belongs(s.orders[o], s.runs[run])
  }

  lemma BillGroupPeriod(s: Books, run: nat, g: Group)
    requires InPeriod(s) && run < |s.runs|
    requires forall i :: 0 <= i < |g.orders| ==> g.orders[i] < |s.orders| && Belongs(s.orders[g.orders[i]], s.runs[run])
    ensures InPeriod(BillGroup(s, run, g)) && Later(s, BillGroup(s, run, g))
  {
    hide Belongs, BillOrders;
    if g.partner in s.affiliates {
      var n := NewInvoice(s, run, s.affiliates[g.partner]);
      LaterKeeps(s, n);
      BillOrdersPeriod(n, |s.invoices|, g.orders);
      LaterTrans(s, n, BillGroup(s, run, g));
    }
  }

  lemma {:induction false} BillGroupsPeriod(s: Books, run: nat, groups: seq<Group>)
    requires InPeriod(s) && InRange(s, groups) && GroupsBelong(s, run, groups)
    ensures InPeriod(BillGroups(s, run, groups)) && Later(s, BillGroups(s, run, groups))
    decreases groups
  {
    if groups != [] {
      hide InPeriod, Belongs, Grouped, BillGroup;
      var g := groups[0];
      forall i | 0 <= i < |g.orders| ensures g.orders[i] < |s.orders| && Belongs(s.orders[g.orders[i]], s.runs[run]) {
        GroupedSplit(groups, g.orders[i]);
      }
      BillGroupPeriod(s, run, g);
      var t := BillGroup(s, run, g);
      forall o: nat | Grouped(groups[1..], o) ensures o < |t.orders| && Belongs(t.orders[o], t.runs[run]) {
        GroupedSplit(groups, o);
        LaterBelongs(s, t, o, run);
      }
      BillGroupsPeriod(t, run, groups[1..]);
      LaterTrans(s, t, BillGroups(t, run, groups[1..]));
    }
  }

  lemma EligibleBelongs(o: Order, run: BillingRun)
    ensures Eligible(o, run) <==> Belongs(o, run) && !o.billed
  {}

  lemma GeneratePeriod(s: Books, run: nat)
    requires InPeriod(s) && Generate(s, run).Ok?
    ensures InPeriod(Generate(s, run).value)
  {
    hide InPeriod, Belongs, Grouped, Eligible, GroupOrders, BillGroups;
    var p := SetStatus(s, run, Processing);
    LaterKeeps(s, p);
    GroupOrdersStart(p, p.runs[run]);
    var groups := GroupOrders(p, p.runs[run], 0, []);
    GroupsInRange(p, p.runs[run], 0, []);
    forall o: nat | Grouped(groups, o) ensures o < |p.orders| && Belongs(p.orders[o], p.runs[run]) {
      EligibleBelongs(p.orders[o], p.runs[run]);
    }
    BillGroupsPeriod(p, run, groups);
    var u := BillGroups(p, run, groups);
    LaterKeeps(u, SetStatus(u, run, Completed));
  }

  lemma {:induction false} CreateInvoicesLater(s: Books, run: nat, v: nat, outcome: nat -> Creation)
    requires v <= |s.invoices|
    ensures var t := CreateInvoices(s, run, v, outcome); Later(s, t) && t.lines == s.lines
    decreases |s.invoices| - v
  {
    if v < |s.invoices| {
      hide CreateInvoice;
      var n := if s.invoices[v].run == run then CreateInvoice(s, v, outcome(v)) else s;
      CreateInvoiceFrame(s, v, outcome(v));
      CreateInvoicesLater(n, run, v + 1, outcome);
      LaterTrans(s, n, CreateInvoices(n, run, v + 1, outcome));
    }
  }

  lemma StepPeriod(s: Books, act: Action)
    requires Inv(s, None) && InPeriod(s)
    ensures InPeriod(Step(s, act))
  {
    hide InPeriod, Belongs;
    match act
    case GenerateRun(run) => { if Generate(s, run).Ok? { GeneratePeriod(s, run); } }
    case CreateJournal(run, outcome) => {
      CreateInvoicesLater(s, run, 0, outcome);
      LaterKeeps(s, Step(s, act));
    }
    case CancelRun(run) => {
      if Cancel(s, run).Ok? { CancelKeeps(s, run); }
      LaterKeeps(s, Step(s, act));
    }
    case _ => { LaterKeeps(s, Step(s, act)); }
  }

  lemma {:induction false} RunPeriod(s: Books, acts: seq<Action>)
    requires Inv(s, None) && InPeriod(s)
    ensures InPeriod(Run(s, acts))
    decreases acts
  {
    if acts != [] {
      hide Inv, InPeriod, Step;
      StepKeeps(s, acts[0]);
      StepPeriod(s, acts[0]);
      RunPeriod(Step(s, acts[0]), acts[1..]);
    }
  }

  /** The amounts of the cargo payments of an order, zero for the others. */
  function CargoAmounts(payments: seq<Payment>): seq<int>
  {
    seq(|payments|, i requires 0 <= i < |payments| => if payments[i].cargo then payments[i].amount else 0)
  }

  /** The charge of an order is the sum of its cargo payments. */
  lemma {:induction false} CargoIsSum(payments: seq<Payment>)
    ensures Cargo(payments) == Sum(CargoAmounts(payments))
  {
    if payments != [] {
      CargoIsSum(payments[1..]);
      assert CargoAmounts(payments)[1..] == CargoAmounts(payments[1..]);
    }
  }

  /** Which status each action on a run asks for. */
  lemma GuardsExactly(s: Books, run: nat)
    ensures Generate(s, run).Ok? <==> run < |s.runs| && s.runs[run].status == Draft
    ensures Cancel(s, run).Ok? <==> run < |s.runs| && s.runs[run].status in {Draft, Processing}
    ensures BackToDraft(s, run).Ok? <==> run < |s.runs| && s.runs[run].status == Cancelled
  {}

  /** What a pending billing invoice with lines becomes: invoiced, with a new journal invoice of
      exactly the amounts of its lines, or in error. */
  lemma CreateInvoiceExactly(s: Books, v: nat)
    requires v < |s.invoices| && s.invoices[v].status == Pending
    requires exists i :: 0 <= i < |s.lines| && s.lines[i].invoice == v
    ensures var t := CreateInvoice(s, v, Created);
      && t.journal == s.journal + [JournalInvoice(v, LineAmounts(s.lines, v))]
      && t.invoices[v].status == Invoiced && t.invoices[v].journal == Some(|s.journal|)
    ensures CreateInvoice(s, v, RaisedBefore).journal == s.journal
    ensures CreateInvoice(s, v, RaisedBefore).invoices[v].status == InError
    ensures CreateInvoice(s, v, RaisedAfter).invoices[v].status == InError
  {
    var i :| 0 <= i < |s.lines| && s.lines[i].invoice == v;
    LinesGiveAmounts(s.lines, v, i);
  }

  /** A billing invoice that is not pending or has no lines is left as it is. */
  lemma CreateInvoiceSkips(s: Books, v: nat, outcome: Creation)
    requires v < |s.invoices|
    requires s.invoices[v].status != Pending || forall i :: 0 <= i < |s.lines| ==> s.lines[i].invoice != v
    ensures CreateInvoice(s, v, outcome) == s
  {
    if forall i :: 0 <= i < |s.lines| ==> s.lines[i].invoice != v { NoLinesNoAmounts(s.lines, v); }
  }

  lemma {:induction false} NoLinesNoAmounts(lines: seq<BillingLine>, v: nat)
    requires forall i :: 0 <= i < |lines| ==> lines[i].invoice != v
    ensures LineAmounts(lines, v) == []
  {
    if lines != [] { NoLinesNoAmounts(lines[1..], v); }
  }

  lemma {:induction false} LinesGiveAmounts(lines: seq<BillingLine>, v: nat, i: nat)
    requires i < |lines| && lines[i].invoice == v
    ensures LineAmounts(lines, v) != []
  {
    if i > 0 { LinesGiveAmounts(lines[1..], v, i - 1); }
  }

  /** Settling an order settles it and changes nothing else. */
  lemma SettleExactly(s: Books, o: nat)
    requires o < |s.orders|
    ensures Step(s, SettleOrder(o)) == s.(orders := s.orders[o := s.orders[o].(settled := true)])
  {}

  /** Generating a run, in the orders' own fields: afterwards an order is flagged exactly when it was
      before, or it is settled, dated within the period, has a cargo payment and a partner with an
      affiliate; and every order like that is on a line. */
  lemma GenerateExactly(s: Books, run: nat)
    requires Inv(s, None) && Generate(s, run).Ok?
    ensures run < |s.runs|
    ensures var t := Generate(s, run).value;
      |t.orders| == |s.orders| &&
      forall o :: 0 <= o < |s.orders| ==>
        var due := Belongs(s.orders[o], s.runs[run])
                   && s.orders[o].partner.Some? && s.orders[o].partner.value in s.affiliates;
        && (t.orders[o].billed <==> s.orders[o].billed || due)
        && (due ==> exists i :: 0 <= i < |t.lines| && t.lines[i].order == o)
  {
    hide Belongs, Eligible, LinesOk, RunsOk, JournalOk;
    assert run < |s.runs|;
    GenerateKeeps(s, run);
    hide Generate;
    forall o | 0 <= o < |s.orders|
      ensures Eligible(s.orders[o], s.runs[run]) <==> Belongs(s.orders[o], s.runs[run]) && !s.orders[o].billed
    {
      EligibleBelongs(s.orders[o], s.runs[run]);
    }
  }

  // ---------------------------------------------------------------- totals

  predicate OfRun(invoices: seq<BillingInvoice>, v: nat, run: nat)
  {
    v < |invoices| && invoices[v].run == run
  }

  /** Per billing invoice of the run, the total of its lines. */
  function InvoiceTotals(invoices: seq<BillingInvoice>, lines: seq<BillingLine>, run: nat): seq<int>
  {
    seq(|invoices|, v requires 0 <= v < |invoices| =>
      if invoices[v].run == run then Sum(LineAmounts(lines, v)) else 0)
  }

  /** The run's total as the record computes it: the sum of its invoices' totals. */
  function RunTotal(s: Books, run: nat): int { Sum(InvoiceTotals(s.invoices, s.lines, run)) }

  /** The cargo payments of the orders billed by the run. */
  function CargoBilled(s: Books, run: nat): int { Sum(CargoPerOrder(s, run)) }

  function CargoPerOrder(s: Books, run: nat): seq<int>
  {
    seq(|s.orders|, o requires 0 <= o < |s.orders| =>
      if s.orders[o].billed && s.orders[o].invoice.Some? && s.orders[o].invoice.value < |s.invoices|
         && s.invoices[s.orders[o].invoice.value].run == run
      then Cargo(s.orders[o].payments) else 0)
  }

  /** What the lines of the run charge to each order. */
  function Charges(invoices: seq<BillingInvoice>, lines: seq<BillingLine>, run: nat, n: nat): seq<int>
    ensures |Charges(invoices, lines, run, n)| == n
  {
    if lines == [] then seq(n, o => 0)
    else
      var before := Charges(invoices, lines[..|lines| - 1], run, n);
      var l := lines[|lines| - 1];
      if OfRun(invoices, l.invoice, run) && l.order < n then before[l.order := before[l.order] + l.amount] else before
  }

  lemma {:induction false} ChargesMatchInvoices(
      invoices: seq<BillingInvoice>, lines: seq<BillingLine>, run: nat, n: nat)
    requires forall i :: 0 <= i < |lines| ==> lines[i].order < n
    ensures Sum(Charges(invoices, lines, run, n)) == Sum(InvoiceTotals(invoices, lines, run))
    decreases lines
  {
    if lines == [] {
      SumConstant(n, 0);
      assert InvoiceTotals(invoices, lines, run) == seq(|invoices|, v => 0);
      SumConstant(|invoices|, 0);
    } else {
      var init, l := lines[..|lines| - 1], lines[|lines| - 1];
      ChargesMatchInvoices(invoices, init, run, n);
      InvoiceTotalsAppend(invoices, init, l, run);
      assert lines == init + [l];
      if OfRun(invoices, l.invoice, run) {
        var before := Charges(invoices, init, run, n);
        SumUpdate(before, l.order, before[l.order] + l.amount);
      }
    }
  }

  lemma InvoiceTotalsAppend(invoices: seq<BillingInvoice>, lines: seq<BillingLine>, l: BillingLine, run: nat)
    ensures Sum(InvoiceTotals(invoices, lines + [l], run))
         == Sum(InvoiceTotals(invoices, lines, run)) + (if OfRun(invoices, l.invoice, run) then l.amount else 0)
  {
    var before, after := InvoiceTotals(invoices, lines, run), InvoiceTotals(invoices, lines + [l], run);
    forall v | 0 <= v < |invoices|
      ensures after[v] == before[v] + (if v == l.invoice && OfRun(invoices, v, run) then l.amount else 0)
    {
      LineAmountsAppend(lines, l, v);
      SumAppend(LineAmounts(lines, v), [l.amount]);
      assert LineAmounts(lines, v) + [] == LineAmounts(lines, v);
    }
    if OfRun(invoices, l.invoice, run) {
      SumUpdate(before, l.invoice, before[l.invoice] + l.amount);
      assert after == before[l.invoice := before[l.invoice] + l.amount];
    } else {
      assert after == before;
    }
  }

  /** With distinct orders on the lines, the charge of an order is the amount of its only line. */
  lemma {:induction false} ChargeOf(invoices: seq<BillingInvoice>, lines: seq<BillingLine>, run: nat, n: nat, o: nat)
    requires o < n
    requires forall i, j :: 0 <= i < j < |lines| ==> lines[i].order != lines[j].order
    ensures (forall i :: 0 <= i < |lines| ==> lines[i].order != o) ==> Charges(invoices, lines, run, n)[o] == 0
    ensures forall i :: 0 <= i < |lines| && lines[i].order == o ==>
      Charges(invoices, lines, run, n)[o] == (if OfRun(invoices, lines[i].invoice, run) then lines[i].amount else 0)
    decreases lines
  {
    if lines != [] {
      var init, l := lines[..|lines| - 1], lines[|lines| - 1];
      ChargeOf(invoices, init, run, n, o);
      assert forall i :: 0 <= i < |init| ==> init[i] == lines[i];
      if l.order == o {
        assert forall i :: 0 <= i < |init| ==> init[i].order != o;
      }
    }
  }

  /** What the lines of a run charge to an order is the cargo of the order, if the run billed it. */
  lemma ChargeIsCargo(s: Books, run: nat, open: Option<nat>, o: nat)
    requires Inv(s, open) && o < |s.orders|
    ensures Charges(s.invoices, s.lines, run, |s.orders|)[o] == CargoPerOrder(s, run)[o]
  {
    ChargeOf(s.invoices, s.lines, run, |s.orders|, o);
    hide Charges, Cargo, RunsOk, JournalOk;
    if s.orders[o].billed {
      var i :| 0 <= i < |s.lines| && s.lines[i].order == o;
      assert LineOk(s, s.lines[i]);
    } else {
      forall i | 0 <= i < |s.lines| ensures s.lines[i].order != o { assert LineOk(s, s.lines[i]); }
    }
  }

  /** Every run's total is the sum of the cargo payments of the orders it billed. */
  lemma TotalIsCargo(s: Books, run: nat, open: Option<nat>)
    requires Inv(s, open)
    ensures RunTotal(s, run) == CargoBilled(s, run)
  {
    forall i | 0 <= i < |s.lines| ensures s.lines[i].order < |s.orders| { assert LineOk(s, s.lines[i]); }
    ChargesMatchInvoices(s.invoices, s.lines, run, |s.orders|);
    hide Charges, Inv, Cargo, InvoiceTotals, Sum;
    var charges := Charges(s.invoices, s.lines, run, |s.orders|);
    forall o | 0 <= o < |s.orders| ensures charges[o] == CargoPerOrder(s, run)[o] {
      ChargeIsCargo(s, run, open, o);
    }
    assert charges == CargoPerOrder(s, run);
  }

  /** Over all runs of the billing module: no order is on two lines, an order is flagged exactly
      when it is on a line, each line charges the order's cargo payments to the order's own
      affiliate, every order on a line is settled, has a cargo payment and is dated within the period
      of the run that billed it, every run's total is the cargo its orders carry, and no billing
      invoice has two journal invoices or one with another total. */
  lemma BillingSafety(affiliates: map<nat, nat>, acts: seq<Action>)
    ensures var s := Run(Opening(affiliates), acts);
      && LinesOk(s) && InPeriod(s)
      && (forall o :: 0 <= o < |s.orders| ==>
            (s.orders[o].billed <==> exists i :: 0 <= i < |s.lines| && s.lines[i].order == o))
      && (forall run: nat :: RunTotal(s, run) == CargoBilled(s, run))
      && (forall i, j :: 0 <= i < j < |s.journal| ==> s.journal[i].origin != s.journal[j].origin)
      && (forall j :: 0 <= j < |s.journal| ==>
            Sum(s.journal[j].prices) == Sum(LineAmounts(s.lines, s.journal[j].origin)))
  {
    RunKeeps(Opening(affiliates), acts);
    RunPeriod(Opening(affiliates), acts);
    var s := Run(Opening(affiliates), acts);
    forall o | 0 <= o < |s.orders|
      ensures s.orders[o].billed <==> exists i :: 0 <= i < |s.lines| && s.lines[i].order == o
    {
      if i :| 0 <= i < |s.lines| && s.lines[i].order == o {
        assert LineOk(s, s.lines[i]);
      }
    }
    forall run: nat ensures RunTotal(s, run) == CargoBilled(s, run) { TotalIsCargo(s, run, None); }
    forall j | 0 <= j < |s.journal|
      ensures Sum(s.journal[j].prices) == Sum(LineAmounts(s.lines, s.journal[j].origin))
    {
      assert JournalEntryOk(s, s.journal[j]);
    }
  }

  // ---------------------------------------------------------------- deleting a run

  function LinesWithout(invoices: seq<BillingInvoice>, lines: seq<BillingLine>, run: nat): seq<BillingLine>
  {
    if lines == [] then []
    else (if OfRun(invoices, lines[0].invoice, run) then [] else [lines[0]]) + LinesWithout(invoices, lines[1..], run)
  }

  /** Deleting a run by hand deletes its invoices and their lines and clears the orders' reference to
      the invoice; the flags stay. The records of the run and its invoices keep their positions
      here and nothing refers to them any more. */
  function DeleteRun(s: Books, run: nat): Books
  {
    s.(lines := LinesWithout(s.invoices, s.lines, run),
       orders := seq(|s.orders|, o requires 0 <= o < |s.orders| =>
         if s.orders[o].invoice.Some? && OfRun(s.invoices, s.orders[o].invoice.value, run)
         then s.orders[o].(invoice := None) else s.orders[o]))
  }

  lemma {:induction false} WithoutExactly(invoices: seq<BillingInvoice>, lines: seq<BillingLine>, run: nat)
    ensures forall l :: l in LinesWithout(invoices, lines, run) <==> l in lines && !OfRun(invoices, l.invoice, run)
  {
    hide OfRun;
    if lines != [] { WithoutExactly(invoices, lines[1..], run); }
  }

  /** An order is flagged exactly when it is on a line. */
  ghost predicate FlagsMatch(s: Books)
  {
    forall o :: 0 <= o < |s.orders| ==> (s.orders[o].billed <==> OnLine(s.lines, o))
  }

  ghost predicate OnLine(lines: seq<BillingLine>, o: nat)
  {
    exists l :: l in lines && l.order == o
  }

  lemma FlagsMatchWhenKept(s: Books)
    requires Inv(s, None)
    ensures FlagsMatch(s)
  {
    hide Cargo;
    forall o | 0 <= o < |s.orders| ensures s.orders[o].billed <==> OnLine(s.lines, o) {
      if s.orders[o].billed {
        var i :| 0 <= i < |s.lines| && s.lines[i].order == o;
        assert s.lines[i] in s.lines;
      }
      if OnLine(s.lines, o) {
        var l :| l in s.lines && l.order == o;
        assert LineOk(s, l);
      }
    }
  }

  /** The order of a deleted line is on no other line. */
  lemma Orphaned(s: Books, run: nat, i: nat)
    requires Inv(s, None) && i < |s.lines| && OfRun(s.invoices, s.lines[i].invoice, run)
    ensures var o := s.lines[i].order;
      o < |s.orders| && s.orders[o].billed && !OnLine(DeleteRun(s, run).lines, o)
  {
    WithoutExactly(s.invoices, s.lines, run);
    hide LinesWithout, OfRun, JournalOk, RunsOk, FlagsOk, Cargo;
    assert LineOk(s, s.lines[i]);
    forall l | l in DeleteRun(s, run).lines ensures l.order != s.lines[i].order {
      var j :| 0 <= j < |s.lines| && s.lines[j] == l;
      assert j != i;
    }
  }

  /** Deleting a run never clears a flag, so flags and lines still match exactly when no line
      belongs to the run: otherwise its orders stay flagged without a line and no later run takes
      them again. */
  lemma DeleteExactly(s: Books, run: nat)
    requires Inv(s, None)
    ensures var t := DeleteRun(s, run);
      && |t.orders| == |s.orders| && (forall o :: 0 <= o < |s.orders| ==> t.orders[o].billed == s.orders[o].billed)
      && (forall o, v :: 0 <= o < |s.orders| && s.orders[o].invoice == Some(v) && v < |s.invoices| ==>
            t.orders[o].invoice == if s.invoices[v].run == run then None else Some(v))
      && (FlagsMatch(t) <==> forall i :: 0 <= i < |s.lines| ==> !OfRun(s.invoices, s.lines[i].invoice, run))
  {
    FlagsMatchWhenKept(s);
    DeleteKeepsFlags(s, run);
    hide DeleteRun, OfRun, Inv, OnLine;
    if i :| 0 <= i < |s.lines| && OfRun(s.invoices, s.lines[i].invoice, run) {
      Orphaned(s, run, i);
    } else {
      NothingDeleted(s, run);
    }
  }

  lemma DeleteKeepsFlags(s: Books, run: nat)
    ensures |DeleteRun(s, run).orders| == |s.orders|
    ensures forall o :: 0 <= o < |s.orders| ==> DeleteRun(s, run).orders[o].billed == s.orders[o].billed
    ensures forall o, v :: 0 <= o < |s.orders| && s.orders[o].invoice == Some(v) && v < |s.invoices| ==>
      DeleteRun(s, run).orders[o].invoice == if s.invoices[v].run == run then None else Some(v)
  {
    hide LinesWithout;
  }

  lemma NothingDeleted(s: Books, run: nat)
    requires forall i :: 0 <= i < |s.lines| ==> !OfRun(s.invoices, s.lines[i].invoice, run)
    ensures forall o: nat :: OnLine(DeleteRun(s, run).lines, o) <==> OnLine(s.lines, o)
  {
    WithoutExactly(s.invoices, s.lines, run);
    hide LinesWithout, OfRun;
    var t := DeleteRun(s, run);
    assert forall l :: l in t.lines <==> l in s.lines;
  }

  lemma NonEmptyHas(lines: seq<BillingLine>)
    ensures lines == [] <==> forall l :: l !in lines
  {
    if lines != [] { assert lines[0] in lines; }
  }

  lemma OnlyRunDeleted(s: Books)
    requires Inv(s, None) && |s.runs| == 1
    ensures DeleteRun(s, 0).lines == []
  {
    WithoutExactly(s.invoices, s.lines, 0);
    hide LinesWithout, JournalOk, Cargo;
    var t := DeleteRun(s, 0);
    forall l | l in s.lines ensures OfRun(s.invoices, l.invoice, 0) { assert LineOk(s, l); }
    NonEmptyHas(t.lines);
  }

  /** Books with one order of one peso and one run that covers it. */
  function OnePesoBooks(): Books
  {
    var order := Order(Some(7), [Payment(true, 100)], 5, true, false, None);
    Books(map[7 := 1], [order], [BillingRun(1, 31, Draft)], [], [], [])
  }

  lemma OnePesoReached()
    ensures var order := NewOrder(Some(7), [Payment(true, 100)], 5, true);
      Step(Step(Opening(map[7 := 1]), order), NewRun(1, 31)) == OnePesoBooks()
    ensures Inv(OnePesoBooks(), None)
    ensures var s := OnePesoBooks(); Eligible(s.orders[0], s.runs[0]) && Billable(s.orders[0], s.affiliates)
  {
    var s := OnePesoBooks();
    assert s.orders[0].payments[0].cargo;
  }

  /** For instance: one order of one peso, billed by the only run, which is then deleted. */
  lemma DeletedRunOrphans()
    ensures var order := NewOrder(Some(7), [Payment(true, 100)], 5, true);
      var s := Run(Opening(map[7 := 1]), [order, NewRun(1, 31), GenerateRun(0)]);
      var t := DeleteRun(s, 0);
      |t.orders| == 1 && t.orders[0].billed && t.lines == []
  {
    var order := NewOrder(Some(7), [Payment(true, 100)], 5, true);
    OnePesoReached();
    RunOfThree(Opening(map[7 := 1]), order, NewRun(1, 31), GenerateRun(0));
    var s2 := OnePesoBooks();
    assert Generate(s2, 0).Ok?;
    hide Run, Inv, Eligible, Generate;
    GenerateKeeps(s2, 0);
    var s := Step(s2, GenerateRun(0));
    OnlyRunDeleted(s);
    DeleteExactly(s, 0);
  }

  lemma RunOfThree(s: Books, a: Action, b: Action, c: Action)
    ensures Run(s, [a, b, c]) == Step(Step(Step(s, a), b), c)
  {
    hide Step;
    var acts := [a, b, c];
    assert acts[1..] == [b, c] && acts[1..][1..] == [c] && [c][1..] == [];
    var s1, s2 := Step(s, a), Step(Step(s, a), b);
    assert Run(s2, [c]) == Run(Step(s2, c), []) && Run(s1, acts[1..]) == Run(s2, [c]);
  }

  // ---------------------------------------------------------------- the records themselves

  class BillingBook {
    var books: Books

    constructor (affiliates: map<nat, nat>)
      ensures books == Opening(affiliates)
    {
      books := Opening(affiliates);
    }

    /** The first loop: collect the eligible orders by partner. */
    method CollectOrders(run: BillingRun) returns (groups: seq<Group>)
      ensures groups == GroupOrders(books, run, 0, []) && InRange(books, groups)
    {
      hide Eligible;
      groups := [];
      for o := 0 to |books.orders|
        invariant GroupOrders(books, run, o, groups) == GroupOrders(books, run, 0, [])
      {
        var order := books.orders[o];
        if Eligible(order, run) && order.partner.Some? {
          groups := AddToGroups(groups, order.partner.value, o);
        }
      }
      GroupsInRange(books, run, 0, []);
    }

    method BillInvoice(invoice: nat, orders: seq<nat>)
      requires forall i :: 0 <= i < |orders| ==> orders[i] < |books.orders|
      modifies this
      ensures books == BillOrders(old(books), invoice, orders)
    {
      assert orders[0..] == orders;
      for i := 0 to |orders|
        invariant |books.orders| == |old(books).orders|
        invariant BillOrders(books, invoice, orders[i..]) == BillOrders(old(books), invoice, orders)
      {
        assert orders[i..][1..] == orders[i + 1..];
        books := BillOrder(books, invoice, orders[i]);
      }
    }

    method ActionGenerate(run: nat) returns (r: Result<(), Refusal>)
      modifies this
      ensures r.Ok? <==> Generate(old(books), run).Ok?
      ensures books == Step(old(books), GenerateRun(run))
    {
      hide GroupOrders, BillOrders;
      if run >= |books.runs| { return Err(NoSuchRun); }
      if books.runs[run].status != Draft { return Err(NotDraft); }
      books := SetStatus(books, run, Processing);
      ghost var start := books;
      var groups := CollectOrders(books.runs[run]);
      assert groups[0..] == groups;
      BillGroupsFrame(start, run, groups);
      for g := 0 to |groups|
        invariant InRange(books, groups) && |books.runs| == |start.runs|
        invariant BillGroups(books, run, groups[g..]) == BillGroups(start, run, groups)
      {
        assert groups[g..][1..] == groups[g + 1..] && groups[g..][0] == groups[g];
        assert forall i :: 0 <= i < |groups[g].orders| ==> groups[g].orders[i] < |books.orders|;
        BillGroupFrame(books, run, groups[g]);
        var partner := groups[g].partner;
        if partner in books.affiliates {
          var invoice := |books.invoices|;
          books := NewInvoice(books, run, books.affiliates[partner]);
          BillInvoice(invoice, groups[g].orders);
        }
      }
      books := SetStatus(books, run, Completed);
      r := Ok(());
    }

    method ActionCreateInvoices(run: nat, outcome: nat -> Creation)
      modifies this
      ensures books == Step(old(books), CreateJournal(run, outcome))
    {
      hide CreateInvoice;
      for v := 0 to |books.invoices|
        invariant |books.invoices| == |old(books).invoices|
        invariant CreateInvoices(books, run, v, outcome) == CreateInvoices(old(books), run, 0, outcome)
      {
        if books.invoices[v].run == run {
          CreateInvoiceCount(books, v, outcome(v));
          books := CreateInvoice(books, v, outcome(v));
        }
      }
    }

    method ActionDraft(run: nat) returns (r: Result<(), Refusal>)
      modifies this
      ensures r.Ok? <==> BackToDraft(old(books), run).Ok?
      ensures books == Step(old(books), DraftRun(run))
    {
      if run >= |books.runs| { return Err(NoSuchRun); }
      if books.runs[run].status != Cancelled { return Err(NotCancelled); }
      books := SetStatus(books, run, Draft);
      r := Ok(());
    }

    method ActionCancel(run: nat) returns (r: Result<(), Refusal>)
      modifies this
      ensures r.Ok? <==> Cancel(old(books), run).Ok?
      ensures books == Step(old(books), CancelRun(run))
    {
      if run >= |books.runs| { return Err(NoSuchRun); }
      if books.runs[run].status != Draft && books.runs[run].status != Processing { return Err(NotOpen); }
      for l := 0 to |books.lines|
        invariant books.lines == old(books).lines && books.runs == old(books).runs
        invariant books.invoices == old(books).invoices
        invariant Unbill(books, run, l) == Unbill(old(books), run, 0)
      {
        var line := books.lines[l];
        if line.invoice < |books.invoices| && books.invoices[line.invoice].run == run && line.order < |books.orders| {
          var order := books.orders[line.order];
          books := books.(orders := books.orders[line.order := order.(billed := false, invoice := None)]);
        }
      }
      books := SetStatus(books, run, Cancelled);
      r := Ok(());
    }
  }

  lemma CreateInvoiceCount(s: Books, v: nat, outcome: Creation)
    requires v < |s.invoices|
    ensures |CreateInvoice(s, v, outcome).invoices| == |s.invoices|
  {
  }
}
