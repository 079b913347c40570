/**
 Employee loans paid off through payslips. Confirming a computed slip charges one installment to
 every active loan of the employee; resetting a slip does not undo the charge. Loans can also be
 paid by `register_payment`, which never takes more than what remains, and by payment rows that a
 manager enters by hand, which nothing limits.
 */
module Payroll {
  import opened Prelude
  import opened Money

  datatype LoanStatus = LoanDraft | Approved | Paying | Paid | LoanCancelled

  datatype Loan = Loan(employee: nat, amount: int, installment: int, payments: seq<int>, status: LoanStatus)

  datatype SlipStatus = SlipDraft | Computed | Done | SlipCancelled

  datatype Slip = Slip(employee: Option<nat>, status: SlipStatus, loanDeductions: int)

  datatype Payroll = Payroll(loans: seq<Loan>, slips: seq<Slip>)

  function TotalPaid(l: Loan): int { Sum(l.payments) }

  function Remaining(l: Loan): int { l.amount - TotalPaid(l) }

  function NumberOfInstallments(amount: int, installment: int): int
  {
    if installment > 0 then (amount + installment - 1) / installment else 0
  }

  function RegisterPayment(l: Loan, amount: int): Loan
  {
    if Remaining(l) <= 0 then l
    else
      var after := l.(payments := l.payments + [MinInt(amount, Remaining(l))]);
      if Remaining(after) <= 0 then after.(status := Paid)
      else if l.status == Approved then after.(status := Paying)
      else after
  }

  /** A payment row entered by hand: no limit and no change of status. */
  function EnterRow(l: Loan, amount: int): Loan { l.(payments := l.payments + [amount]) }

  predicate Active(l: Loan, employee: nat)
  {
    l.employee == employee && (l.status == Approved || l.status == Paying) && Remaining(l) > 0
  }

  function Due(l: Loan, employee: nat): int
  {
    if Active(l, employee) then MinInt(l.installment, Remaining(l)) else 0
  }

  function Charge(l: Loan, employee: nat): Loan
  {
    if Active(l, employee) && Due(l, employee) > 0 then RegisterPayment(l, Due(l, employee)) else l
  }

  function ChargeAll(loans: seq<Loan>, employee: nat): seq<Loan>
  {
    seq(|loans|, i requires 0 <= i < |loans| => Charge(loans[i], employee))
  }

  function Deductions(loans: seq<Loan>, employee: nat): int
  {
    if loans == [] then 0 else Deductions(loans[..|loans| - 1], employee) + Due(loans[|loans| - 1], employee)
  }

  // ---------------------------------------------------------------- actions

  datatype Action =
    | ComputeSlip(slip: nat) | ConfirmSlip(slip: nat) | CancelSlip(slip: nat) | ResetSlip(slip: nat)
    | NewSlip(employee: Option<nat>)
    | SetLoanStatus(loan: nat, status: LoanStatus)
    | PayLoan(loan: nat, amount: int)
    | EnterPayment(loan: nat, amount: int)

  predicate Confirms(p: Payroll, s: nat) { s < |p.slips| && p.slips[s].status == Computed }

  function Step(p: Payroll, act: Action): Payroll
  {
    match act
    case NewSlip(employee) => p.(slips := p.slips + [Slip(employee, SlipDraft, 0)])
    case SetLoanStatus(l, status) =>
      if l < |p.loans| then p.(loans := p.loans[l := p.loans[l].(status := status)]) else p
    case PayLoan(l, amount) =>
      if l < |p.loans| then p.(loans := p.loans[l := RegisterPayment(p.loans[l], amount)]) else p
    case EnterPayment(l, amount) =>
      if l < |p.loans| then p.(loans := p.loans[l := EnterRow(p.loans[l], amount)]) else p
    case ComputeSlip(s) =>
      if s < |p.slips| && p.slips[s].status == SlipDraft then
        var e := p.slips[s].employee;
        var d := if e.Some? then Deductions(p.loans, e.value) else 0;
        p.(slips := p.slips[s := p.slips[s].(status := Computed, loanDeductions := d)])
      else p
    case ConfirmSlip(s) =>
      if Confirms(p, s) then
        var e := p.slips[s].employee;
        p.(slips := p.slips[s := p.slips[s].(status := Done)],
           loans := if e.Some? then ChargeAll(p.loans, e.value) else p.loans)
      else p
    case CancelSlip(s) =>
      if s < |p.slips| then p.(slips := p.slips[s := p.slips[s].(status := SlipCancelled)]) else p
    case ResetSlip(s) =>
      if s < |p.slips| then p.(slips := p.slips[s := p.slips[s].(status := SlipDraft)]) else p
  }

  function Run(p: Payroll, acts: seq<Action>): Payroll
    decreases acts
  {
    if acts == [] then p else Run(Step(p, acts[0]), acts[1..])
  }

  // ---------------------------------------------------------------- never more than the loan

  ghost predicate WithinAmount(p: Payroll)
  {
    forall i :: 0 <= i < |p.loans| ==> TotalPaid(p.loans[i]) <= p.loans[i].amount
  }

  lemma RegisterWithin(l: Loan, amount: int)
    requires TotalPaid(l) <= l.amount
    ensures TotalPaid(RegisterPayment(l, amount)) <= l.amount
    ensures RegisterPayment(l, amount).amount == l.amount
  {
    SumAppend(l.payments, [MinInt(amount, Remaining(l))]);
  }

  /** The action is not a hand-entered row beyond what remains of its loan. */
  predicate WithinRemaining(p: Payroll, act: Action)
  {
    act.EnterPayment? && act.loan < |p.loans| ==> act.amount <= Remaining(p.loans[act.loan])
  }

  lemma EnterRowWithin(l: Loan, amount: int)
    ensures TotalPaid(EnterRow(l, amount)) == TotalPaid(l) + amount
  {
    SumAppend(l.payments, [amount]);
  }

  /** The only step that can overpay a loan is a hand-entered row beyond what remains. */
  lemma StepWithinExactly(p: Payroll, act: Action)
    requires WithinAmount(p)
    ensures WithinAmount(Step(p, act)) <==> WithinRemaining(p, act)
  {
    hide TotalPaid, RegisterPayment, EnterRow, Charge;
    match act
    case ConfirmSlip(s) => {
      if Confirms(p, s) && p.slips[s].employee.Some? {
        var e := p.slips[s].employee.value;
        forall i | 0 <= i < |p.loans| ensures TotalPaid(Charge(p.loans[i], e)) <= Charge(p.loans[i], e).amount {
          ChargeWithin(p.loans[i], e);
        }
      }
    }
    case PayLoan(l, amount) => if l < |p.loans| { RegisterWithin(p.loans[l], amount); }
    case EnterPayment(l, amount) => {
      if l < |p.loans| {
        EnterRowWithin(p.loans[l], amount);
        EnterRowKeeps(p.loans[l], amount);
        assert Step(p, act).loans[l] == EnterRow(p.loans[l], amount);
      }
    }
    case SetLoanStatus(l, status) => if l < |p.loans| { StatusKeepsPaid(p.loans[l], status); }
    case _ => {}
  }

  lemma StatusKeepsPaid(l: Loan, status: LoanStatus)
    ensures TotalPaid(l.(status := status)) == TotalPaid(l)
  {}

  lemma EnterRowKeeps(l: Loan, amount: int)
    ensures EnterRow(l, amount).amount == l.amount
  {}

  lemma ChargeWithin(l: Loan, employee: nat)
    requires TotalPaid(l) <= l.amount
    ensures TotalPaid(Charge(l, employee)) <= Charge(l, employee).amount
  {
    RegisterWithin(l, Due(l, employee));
  }

  /** No loan is overpaid at any point of the run. */
  ghost predicate AlwaysWithin(p: Payroll, acts: seq<Action>)
    decreases acts
  {
    WithinAmount(p) && (acts != [] ==> AlwaysWithin(Step(p, acts[0]), acts[1..]))
  }

  ghost predicate EntersWithin(p: Payroll, acts: seq<Action>)
    decreases acts
  {
    acts != [] ==> WithinRemaining(p, acts[0]) && EntersWithin(Step(p, acts[0]), acts[1..])
  }

  /** Over every interleaving of slip actions, payments and manual status changes, no loan is ever
      paid beyond its amount, exactly when no hand-entered row exceeds what remains at the time. */
  lemma {:induction false} NeverOverpaid(p: Payroll, acts: seq<Action>)
    requires WithinAmount(p)
    ensures AlwaysWithin(p, acts) <==> EntersWithin(p, acts)
    ensures (forall i :: 0 <= i < |acts| ==> !acts[i].EnterPayment?) ==> AlwaysWithin(p, acts)
    ensures AlwaysWithin(p, acts) ==> WithinAmount(Run(p, acts))
    decreases acts
  {
    if acts != [] {
      hide WithinAmount, WithinRemaining, Step;
      StepWithinExactly(p, acts[0]);
      if WithinAmount(Step(p, acts[0])) {
        NeverOverpaid(Step(p, acts[0]), acts[1..]);
      }
      if !acts[0].EnterPayment? { OtherActionsWithin(p, acts[0]); }
    }
  }

  lemma OtherActionsWithin(p: Payroll, act: Action)
    requires !act.EnterPayment?
    ensures WithinRemaining(p, act)
  {}

  /** A row of 150 on a loan of 100. */
  lemma EnteredBeyond()
    ensures var p := Payroll([Loan(1, 100, 80, [], Approved)], []);
      WithinAmount(p) && TotalPaid(Step(p, EnterPayment(0, 150)).loans[0]) == 150
  {
    EnterRowWithin(Loan(1, 100, 80, [], Approved), 150);
  }

  // ---------------------------------------------------------------- paid off after exactly so many

  /** How often the run confirms a slip of the employee. */
  function Confirmations(p: Payroll, acts: seq<Action>, employee: nat): nat
    decreases acts
  {
    if acts == [] then 0
    else
      (if acts[0].ConfirmSlip? && Confirms(p, acts[0].slip) && p.slips[acts[0].slip].employee == Some(employee)
       then 1 else 0)
      + Confirmations(Step(p, acts[0]), acts[1..], employee)
  }

  /** The loan after `c` charges of its installment. */
  ghost predicate Charged(l: Loan, c: nat)
  {
    && l.amount > 0 && l.installment > 0
    && TotalPaid(l) == (if c * l.installment >= l.amount then l.amount else c * l.installment)
    && (TotalPaid(l) == l.amount ==> l.status == Paid)
    && (TotalPaid(l) < l.amount ==> l.status == Approved || l.status == Paying)
  }

  lemma ChargeOnce(l: Loan, c: nat)
    requires Charged(l, c)
    ensures Charged(Charge(l, l.employee), c + 1)
    ensures Charge(l, l.employee).amount == l.amount && Charge(l, l.employee).installment == l.installment
    ensures Charge(l, l.employee).employee == l.employee
    ensures TotalPaid(l) == l.amount ==> Charge(l, l.employee) == l
  {
    assert (c + 1) * l.installment == c * l.installment + l.installment;
    if TotalPaid(l) < l.amount {
      SumAppend(l.payments, [Due(l, l.employee)]);
    }
  }

  predicate IsSlipAction(act: Action) { !act.SetLoanStatus? && !act.PayLoan? && !act.EnterPayment? }

  /** Actions on payslips only: no manual change of a loan's status and no other payment. */
  ghost predicate SlipActions(acts: seq<Action>)
  {
    forall i :: 0 <= i < |acts| ==> IsSlipAction(acts[i])
  }

  lemma OtherStepsKeepLoan(p: Payroll, act: Action, i: nat, e: nat)
    requires i < |p.loans| && IsSlipAction(act) && p.loans[i].employee == e
    ensures |Step(p, act).loans| == |p.loans|
    ensures Step(p, act).loans[i] ==
      if act.ConfirmSlip? && Confirms(p, act.slip) && p.slips[act.slip].employee == Some(e)
      then Charge(p.loans[i], e) else p.loans[i]
  {
  }

  lemma {:induction false} ChargesCount(p: Payroll, acts: seq<Action>, i: nat, c: nat)
    requires i < |p.loans| && Charged(p.loans[i], c) && SlipActions(acts)
    ensures var q := Run(p, acts);
      && i < |q.loans|
      && q.loans[i].amount == p.loans[i].amount && q.loans[i].installment == p.loans[i].installment
      && Charged(q.loans[i], c + Confirmations(p, acts, p.loans[i].employee))
    decreases acts
  {
    if acts != [] {
      hide Charged, Charge;
      var e := p.loans[i].employee;
      OtherStepsKeepLoan(p, acts[0], i, e);
      ChargeOnce(p.loans[i], c);
      var charged := acts[0].ConfirmSlip? && Confirms(p, acts[0].slip) && p.slips[acts[0].slip].employee == Some(e);
      ChargesCount(Step(p, acts[0]), acts[1..], i, if charged then c + 1 else c);
    }
  }

  lemma CeilingReached(amount: int, installment: int, c: nat)
    requires amount > 0 && installment > 0
    ensures c * installment >= amount <==> c >= NumberOfInstallments(amount, installment)
  {
    var n := (amount + installment - 1) / installment;
    var r := (amount + installment - 1) % installment;
    assert amount + installment - 1 == n * installment + r;
    if c >= n {
      assert c * installment >= n * installment;
    } else {
      assert c + 1 <= n;
      assert (c + 1) * installment <= n * installment;
      assert (c + 1) * installment == c * installment + installment;
    }
  }

  /** A newly approved loan charged only through payslips is paid exactly from the computed
      number of installments on; until then each confirmation pays one whole installment, and
      afterwards nothing more is charged. */
  lemma PaidOffExactly(p: Payroll, acts: seq<Action>, i: nat)
    requires i < |p.loans| && SlipActions(acts)
    requires p.loans[i].amount > 0 && p.loans[i].installment > 0
    requires p.loans[i].payments == [] && p.loans[i].status == Approved
    ensures var q := Run(p, acts);
      var l := p.loans[i];
      var c := Confirmations(p, acts, l.employee);
      && i < |q.loans|
      && (q.loans[i].status == Paid <==> c >= NumberOfInstallments(l.amount, l.installment))
      && TotalPaid(q.loans[i]) ==
           (if c >= NumberOfInstallments(l.amount, l.installment) then l.amount else c * l.installment)
  {
    var l := p.loans[i];
    assert Charged(l, 0);
    ChargesCount(p, acts, i, 0);
    var c := Confirmations(p, acts, l.employee);
    CeilingReached(l.amount, l.installment, c);
  }

  // ---------------------------------------------------------------- what the slip shows

  /** What a confirmation takes from a loan: nothing when the installment due is not positive. */
  function Taken(l: Loan, employee: nat): nat
  {
    if Due(l, employee) > 0 then Due(l, employee) else 0
  }

  lemma ChargeTakes(l: Loan, employee: nat)
    ensures TotalPaid(Charge(l, employee)) == TotalPaid(l) + Taken(l, employee)
  {
    SumAppend(l.payments, [Due(l, employee)]);
  }

  function PaidByAll(loans: seq<Loan>): int
  {
    if loans == [] then 0 else PaidByAll(loans[..|loans| - 1]) + TotalPaid(loans[|loans| - 1])
  }

  function TakenFromAll(loans: seq<Loan>, employee: nat): nat
  {
    if loans == [] then 0 else TakenFromAll(loans[..|loans| - 1], employee) + Taken(loans[|loans| - 1], employee)
  }

  /** Confirming takes from each loan exactly what is due at that moment and positive. */
  lemma {:induction false} ConfirmCharges(loans: seq<Loan>, employee: nat)
    ensures PaidByAll(ChargeAll(loans, employee)) == PaidByAll(loans) + TakenFromAll(loans, employee)
  {
    if loans != [] {
      hide Charge, Taken, TotalPaid;
      var init, l := loans[..|loans| - 1], loans[|loans| - 1];
      ConfirmCharges(init, employee);
      ChargeTakes(l, employee);
      assert ChargeAll(loans, employee)[..|loans| - 1] == ChargeAll(init, employee);
    }
  }

  // ---------------------------------------------------------------- what a slip shows and what it charges

  /** The sum of so many installments. */
  function Installments(c: nat, installment: int): int { c * installment }

  lemma OneMoreInstallment(c: nat, installment: int)
    ensures Installments(0, installment) == 0
    ensures Installments(c + 1, installment) == Installments(c, installment) + installment
    ensures installment > 0 && c > 0 ==> Installments(c, installment) >= installment
    ensures installment >= 0 ==> Installments(c, installment) >= 0
    ensures installment == 0 ==> Installments(c, installment) == 0
  {}

  function Repeat(l: Loan, c: nat): Loan
    decreases c
  {
    if c == 0 then l else Repeat(Charge(l, l.employee), c - 1)
  }

  /** How much more a slip shows for a loan than it takes from it `c` confirmations later. */
  function Excess(l: Loan, employee: nat, c: nat): int
  {
    if !Active(l, employee) then 0
    else if l.installment <= 0 then l.installment
    else if c == 0 || Remaining(l) >= Installments(c + 1, l.installment) then 0
    else if Remaining(l) <= Installments(c, l.installment) then MinInt(l.installment, Remaining(l))
    else Installments(c + 1, l.installment) - Remaining(l)
  }

  function ExcessOfAll(loans: seq<Loan>, employee: nat, c: nat): int
  {
    if loans == [] then 0
    else ExcessOfAll(loans[..|loans| - 1], employee, c) + Excess(loans[|loans| - 1], employee, c)
  }

  lemma ChargeFrame(l: Loan, employee: nat)
    ensures var after := Charge(l, employee);
      && after.employee == l.employee && after.amount == l.amount && after.installment == l.installment
      && (!Active(l, employee) || l.installment <= 0 ==> after == l)
  {}

  lemma {:induction false} Unaffected(l: Loan, c: nat)
    requires !Active(l, l.employee) || l.installment <= 0
    ensures Repeat(l, c) == l
    decreases c
  {
    if c > 0 {
      ChargeFrame(l, l.employee);
      Unaffected(l, c - 1);
    }
  }

  /** What remains of an active loan after one charge, and whether it is still active. */
  lemma ChargeRemains(l: Loan)
    requires Active(l, l.employee) && l.installment > 0
    ensures var after := Charge(l, l.employee);
      && Remaining(after) == Remaining(l) - MinInt(l.installment, Remaining(l))
      && (Active(after, l.employee) <==> Remaining(l) > l.installment)
  {
    SumAppend(l.payments, [Due(l, l.employee)]);
  }

  /** What a confirmation takes after `c` earlier ones, in terms of the loan before them. */
  lemma {:induction false} TakenLater(l: Loan, c: nat)
    requires Active(l, l.employee) && l.installment > 0
    ensures Repeat(l, c).employee == l.employee
    ensures Taken(Repeat(l, c), l.employee)
         == (if Remaining(l) <= Installments(c, l.installment) then 0
             else MinInt(l.installment, Remaining(l) - Installments(c, l.installment)))
    decreases c
  {
    if c > 0 {
      var next := Charge(l, l.employee);
      ChargeFrame(l, l.employee);
      ChargeRemains(l);
      OneMoreInstallment(c - 1, l.installment);
      hide Charge, Installments;
      if Active(next, l.employee) {
        TakenLater(next, c - 1);
      } else {
        Unaffected(next, c - 1);
      }
    }
  }

  lemma {:induction false} RepeatEmployee(l: Loan, c: nat)
    ensures Repeat(l, c).employee == l.employee
    decreases c
  {
    if c > 0 {
      ChargeFrame(l, l.employee);
      RepeatEmployee(Charge(l, l.employee), c - 1);
    }
  }

  lemma ExcessOf(l: Loan, c: nat)
    ensures Due(l, l.employee) - Taken(Repeat(l, c), l.employee) == Excess(l, l.employee, c)
  {
    if Active(l, l.employee) && l.installment > 0 {
      TakenLater(l, c);
      OneMoreInstallment(c, l.installment);
      hide Repeat, Remaining, Installments;
    } else {
      Unaffected(l, c);
    }
  }

  lemma {:induction false} RunRepeats(p: Payroll, acts: seq<Action>, i: nat)
    requires i < |p.loans| && SlipActions(acts)
    ensures |Run(p, acts).loans| == |p.loans|
    ensures Run(p, acts).loans[i] == Repeat(p.loans[i], Confirmations(p, acts, p.loans[i].employee))
    decreases acts
  {
    if acts != [] {
      hide Charge, Step, Confirms;
      var e := p.loans[i].employee;
      OtherStepsKeepLoan(p, acts[0], i, e);
      ChargeFrame(p.loans[i], e);
      RunRepeats(Step(p, acts[0]), acts[1..], i);
    }
  }

  lemma {:induction false} RunKeepsCount(p: Payroll, acts: seq<Action>)
    requires SlipActions(acts)
    ensures |Run(p, acts).loans| == |p.loans|
    decreases acts
  {
    if acts != [] { RunKeepsCount(Step(p, acts[0]), acts[1..]); }
  }

  /** `later` are the loans of `loans` after `c` charges to the employee's own. */
  ghost predicate ChargedLater(loans: seq<Loan>, later: seq<Loan>, employee: nat, c: nat)
  {
    && |later| == |loans|
    && forall i :: 0 <= i < |loans| ==>
         && later[i].employee == loans[i].employee
         && (loans[i].employee == employee ==> later[i] == Repeat(loans[i], c))
  }

  lemma {:induction false} ExcessAddsUp(loans: seq<Loan>, later: seq<Loan>, employee: nat, c: nat)
    requires ChargedLater(loans, later, employee, c)
    ensures Deductions(loans, employee) - TakenFromAll(later, employee) == ExcessOfAll(loans, employee, c)
    decreases loans
  {
    if loans != [] {
      hide Repeat, Excess, Taken, Due;
      var last := |loans| - 1;
      ExcessAddsUp(loans[..last], later[..last], employee, c);
      if loans[last].employee == employee {
        ExcessOf(loans[last], c);
      } else {
        NothingForOthers(loans[last], later[last], employee, c);
      }
    }
  }

  lemma NothingForOthers(l: Loan, later: Loan, employee: nat, c: nat)
    requires l.employee != employee && later.employee != employee
    ensures Due(l, employee) == 0 && Taken(later, employee) == 0 && Excess(l, employee, c) == 0
  {}

  /** The actions leave slip `s` alone. */
  predicate Spares(act: Action, s: nat)
  {
    (act.ComputeSlip? || act.ConfirmSlip? || act.CancelSlip? || act.ResetSlip?) ==> act.slip != s
  }

  lemma {:induction false} SlipSpared(p: Payroll, acts: seq<Action>, s: nat)
    requires s < |p.slips| && forall i :: 0 <= i < |acts| ==> Spares(acts[i], s)
    ensures s < |Run(p, acts).slips| && Run(p, acts).slips[s] == p.slips[s]
    decreases acts
  {
    if acts != [] { SlipSpared(Step(p, acts[0]), acts[1..], s); }
  }

  /** A slip that is computed and, after any actions that leave it alone, confirmed. */
  ghost predicate ComputedThenConfirmed(p: Payroll, s: nat, acts: seq<Action>)
  {
    && s < |p.slips| && p.slips[s].status == SlipDraft && p.slips[s].employee.Some?
    && forall i :: 0 <= i < |acts| ==> Spares(acts[i], s)
  }

  /** The deduction on the slip when it is confirmed, and what the confirmation then takes. */
  function Shown(p: Payroll, s: nat, acts: seq<Action>): int
  {
    var q := Run(Step(p, ComputeSlip(s)), acts);
    if s < |q.slips| then q.slips[s].loanDeductions else 0
  }

  function ChargedThen(p: Payroll, s: nat, acts: seq<Action>): int
  {
    var q := Run(Step(p, ComputeSlip(s)), acts);
    PaidByAll(Step(q, ConfirmSlip(s)).loans) - PaidByAll(q.loans)
  }

  function ConfirmedBetween(p: Payroll, s: nat, acts: seq<Action>, employee: nat): nat
  {
    Confirmations(Step(p, ComputeSlip(s)), acts, employee)
  }

  function LoansAtConfirming(p: Payroll, s: nat, acts: seq<Action>): seq<Loan>
  {
    Run(Step(p, ComputeSlip(s)), acts).loans
  }

  /** For every slip and every run of actions between computing and confirming it, it shows what
      the loans had due at computing and charges what they have due, and positive, at confirming. */
  lemma ShownAndCharged(p: Payroll, s: nat, acts: seq<Action>)
    requires ComputedThenConfirmed(p, s, acts)
    ensures var e := p.slips[s].employee.value;
      && Shown(p, s, acts) == Deductions(p.loans, e)
      && ChargedThen(p, s, acts) == TakenFromAll(LoansAtConfirming(p, s, acts), e)
  {
    hide Run, Deductions, TakenFromAll, PaidByAll;
    SlipSpared(Step(p, ComputeSlip(s)), acts, s);
    ConfirmCharges(LoansAtConfirming(p, s, acts), p.slips[s].employee.value);
  }

  /** When all the actions in between are slip actions, what it shows beyond what it charges is the
      summed excess of the loans as they were at computing. */
  lemma ShownBeyondCharged(p: Payroll, s: nat, acts: seq<Action>)
    requires ComputedThenConfirmed(p, s, acts) && SlipActions(acts)
    ensures var e := p.slips[s].employee.value;
      Shown(p, s, acts) - ChargedThen(p, s, acts)
        == ExcessOfAll(p.loans, e, ConfirmedBetween(p, s, acts, e))
  {
    hide Run, Confirmations, Deductions, TakenFromAll, ExcessOfAll, Shown, ChargedThen, Repeat;
    var e := p.slips[s].employee.value;
    var computed := Step(p, ComputeSlip(s));
    var q := Run(computed, acts);
    var c := ConfirmedBetween(p, s, acts, e);
    RunKeepsCount(computed, acts);
    forall i | 0 <= i < |p.loans|
      ensures q.loans[i].employee == p.loans[i].employee
      ensures p.loans[i].employee == e ==> q.loans[i] == Repeat(p.loans[i], c)
    {
      RunRepeats(computed, acts, i);
      RepeatEmployee(p.loans[i], Confirmations(computed, acts, p.loans[i].employee));
    }
    ExcessAddsUp(p.loans, q.loans, e, c);
    ShownAndCharged(p, s, acts);
  }

  /** The employee's active loans, as they were, have no negative installment. */
  ghost predicate NoNegative(loans: seq<Loan>, employee: nat)
  {
    forall i :: 0 <= i < |loans| && Active(loans[i], employee) ==> loans[i].installment >= 0
  }

  /** Each of them could pay `c` installments and one more in full. */
  ghost predicate Outlasts(loans: seq<Loan>, employee: nat, c: nat)
  {
    forall i :: 0 <= i < |loans| && Active(loans[i], employee) ==>
      c == 0 || Remaining(loans[i]) >= Installments(c + 1, loans[i].installment)
  }

  lemma ExcessSign(l: Loan, employee: nat, c: nat)
    ensures Excess(l, employee, c) < 0 <==> Active(l, employee) && l.installment < 0
    ensures Excess(l, employee, c) > 0 <==>
      Active(l, employee) && c > 0 && l.installment > 0 && Remaining(l) < Installments(c + 1, l.installment)
  {
    if Active(l, employee) && l.installment > 0 {
      OneMoreInstallment(c, l.installment);
      hide Remaining, Installments;
    }
  }

  lemma {:induction false} ExcessOfAllSign(loans: seq<Loan>, employee: nat, c: nat)
    ensures NoNegative(loans, employee) ==>
      ExcessOfAll(loans, employee, c) >= 0 && (ExcessOfAll(loans, employee, c) == 0 <==> Outlasts(loans, employee, c))
    ensures c == 0 ==>
      ExcessOfAll(loans, employee, c) <= 0 && (ExcessOfAll(loans, employee, c) == 0 <==> NoNegative(loans, employee))
  {
    if loans != [] {
      hide Excess, Active, Remaining, Installments;
      var last := |loans| - 1;
      var init, l := loans[..last], loans[last];
      ExcessOfAllSign(init, employee, c);
      ExcessSign(l, employee, c);
      SplitLast(loans, employee, c);
      if l.installment == 0 { ZeroInstallment(l, employee, c); }
    }
  }

  lemma ZeroInstallment(l: Loan, employee: nat, c: nat)
    requires l.installment == 0
    ensures Active(l, employee) ==> Remaining(l) >= Installments(c + 1, l.installment)
  {
    OneMoreInstallment(c, 0);
  }

  lemma SplitLast(loans: seq<Loan>, employee: nat, c: nat)
    requires loans != []
    ensures var init, l := loans[..|loans| - 1], loans[|loans| - 1];
      && (NoNegative(loans, employee) <==>
            NoNegative(init, employee) && (Active(l, employee) ==> l.installment >= 0))
      && (Outlasts(loans, employee, c) <==>
            Outlasts(init, employee, c)
            && (Active(l, employee) ==> c == 0 || Remaining(l) >= Installments(c + 1, l.installment)))
  {
    hide Active, Remaining, Installments;
    var last := |loans| - 1;
    assert forall i :: 0 <= i < last ==> loans[..last][i] == loans[i];
  }

  /** Whatever payments, status changes and slip actions happen in between, a slip charges what it
      shows exactly when what the loans have due at confirming, counting only positive amounts, is
      what they had due at computing. If only slip actions happen in between, that is known at
      computing: the excesses must cancel out. Without negative installments that means: no slip
      of the employee was confirmed in between, or every active loan could still pay that many
      installments and one more. Without a confirmation in between, it means that no active loan
      has a negative installment. */
  lemma ShownIsChargedExactly(p: Payroll, s: nat, acts: seq<Action>)
    requires ComputedThenConfirmed(p, s, acts)
    ensures var e := p.slips[s].employee.value;
      var c := ConfirmedBetween(p, s, acts, e);
      var same := Shown(p, s, acts) == ChargedThen(p, s, acts);
      && (same <==> Deductions(p.loans, e) == TakenFromAll(LoansAtConfirming(p, s, acts), e))
      && (SlipActions(acts) ==>
            && (same <==> ExcessOfAll(p.loans, e, c) == 0)
            && (NoNegative(p.loans, e) ==> (same <==> Outlasts(p.loans, e, c)))
            && (c == 0 ==> (same <==> NoNegative(p.loans, e))))
  {
    hide Shown, ChargedThen, NoNegative, Outlasts, ExcessOfAll, ConfirmedBetween, LoansAtConfirming;
    hide Deductions, TakenFromAll;
    var e := p.slips[s].employee.value;
    ShownAndCharged(p, s, acts);
    if SlipActions(acts) {
      ShownBeyondCharged(p, s, acts);
      ExcessOfAllSign(p.loans, e, ConfirmedBetween(p, s, acts, e));
    }
  }

  /** Confirmed right after it was computed, a slip charges what it shows exactly when no active
      loan of the employee has a negative installment. */
  lemma ComputeThenConfirm(p: Payroll, s: nat)
    requires s < |p.slips| && p.slips[s].status == SlipDraft && p.slips[s].employee.Some?
    ensures Shown(p, s, []) == ChargedThen(p, s, []) <==> NoNegative(p.loans, p.slips[s].employee.value)
  {
    hide Shown, ChargedThen, NoNegative;
    ShownIsChargedExactly(p, s, []);
  }

  /** A loan without a positive installment, whose number of installments is zero, is never
      charged by any run of slip actions. */
  lemma NoInstallmentNoCharge(p: Payroll, acts: seq<Action>, i: nat)
    requires i < |p.loans| && SlipActions(acts) && p.loans[i].installment <= 0
    ensures |Run(p, acts).loans| == |p.loans| && Run(p, acts).loans[i] == p.loans[i]
    ensures NumberOfInstallments(p.loans[i].amount, p.loans[i].installment) == 0
  {
    hide Run, Repeat, Confirmations;
    RunRepeats(p, acts, i);
    Unaffected(p.loans[i], Confirmations(p, acts, p.loans[i].employee));
  }

  /** Two slips computed before either is confirmed can show more than is charged. */
  lemma StaleDeductions()
    ensures var p := Payroll([Loan(1, 100, 80, [], Approved)],
                             [Slip(Some(1), SlipDraft, 0), Slip(Some(1), SlipDraft, 0)]);
      var q := Step(Step(Step(Step(p, ComputeSlip(0)), ComputeSlip(1)), ConfirmSlip(0)), ConfirmSlip(1));
      && q.slips[0].loanDeductions + q.slips[1].loanDeductions == 160
      && TotalPaid(q.loans[0]) == 100
  {
    var l := Loan(1, 100, 80, [], Approved);
    var loans := [l];
    assert Due(l, 1) == 80;
    assert loans[..0] == [] && Deductions(loans, 1) == Deductions([], 1) + 80;
    var l1 := Charge(l, 1);
    assert l1.payments == [80] by { assert [] + [80] == [80]; }
    assert Sum([80]) == 80;
    assert l1 == Loan(1, 100, 80, [80], Paying);
    assert Due(l1, 1) == 20;
    var l2 := Charge(l1, 1);
    assert l2.payments == [80] + [20];
    SumAppend([80], [20]);
  }

  /** A payment in between makes the slip show 80 and charge nothing. */
  lemma PaidInBetween()
    ensures var p := Payroll([Loan(1, 100, 80, [], Approved)], [Slip(Some(1), SlipDraft, 0)]);
      var acts := [EnterPayment(0, 100)];
      Shown(p, 0, acts) == 80 && ChargedThen(p, 0, acts) == 0
  {
    var l := Loan(1, 100, 80, [], Approved);
    var loans := [l];
    var p := Payroll(loans, [Slip(Some(1), SlipDraft, 0)]);
    var act := EnterPayment(0, 100);
    ShownAndCharged(p, 0, [act]);
    assert Due(l, 1) == 80 && loans[..0] == [] && Deductions(loans, 1) == Deductions([], 1) + 80;
    var paid := EnterRow(l, 100);
    EnterRowWithin(l, 100);
    var computed := Step(p, ComputeSlip(0));
    var later := [paid];
    assert Step(computed, act).loans == later;
    assert [act][1..] == [] && Run(computed, [act]) == Run(Step(computed, act), []);
    assert later[..0] == [] && TakenFromAll(later, 1) == TakenFromAll([], 1) + Taken(paid, 1) == 0;
  }

  /** A loan approved in between is charged without having been shown. */
  lemma StatusInBetween()
    ensures var p := Payroll([Loan(1, 100, 80, [], LoanDraft)], [Slip(Some(1), SlipDraft, 0)]);
      var acts := [SetLoanStatus(0, Approved)];
      Shown(p, 0, acts) == 0 && ChargedThen(p, 0, acts) == 80
  {
    var l := Loan(1, 100, 80, [], LoanDraft);
    var loans := [l];
    var p := Payroll(loans, [Slip(Some(1), SlipDraft, 0)]);
    var act := SetLoanStatus(0, Approved);
    ShownAndCharged(p, 0, [act]);
    assert Due(l, 1) == 0 && loans[..0] == [] && Deductions(loans, 1) == Deductions([], 1) + 0;
    var approved := l.(status := Approved);
    var computed := Step(p, ComputeSlip(0));
    var later := [approved];
    assert Step(computed, act).loans == later;
    assert [act][1..] == [] && Run(computed, [act]) == Run(Step(computed, act), []);
    assert later[..0] == [] && TakenFromAll(later, 1) == TakenFromAll([], 1) + Taken(approved, 1) == 80;
  }

  /** A negative installment is shown as a negative deduction and charged as nothing. */
  lemma NegativeInstallment()
    ensures var p := Payroll([Loan(1, 100, -5, [], Approved)], [Slip(Some(1), SlipDraft, 0)]);
      Shown(p, 0, []) == -5 && ChargedThen(p, 0, []) == 0
  {
    var l := Loan(1, 100, -5, [], Approved);
    var loans := [l];
    var p := Payroll(loans, [Slip(Some(1), SlipDraft, 0)]);
    assert Due(l, 1) == -5;
    assert loans[..0] == [] && Deductions(loans, 1) == Deductions([], 1) - 5;
    ConfirmCharges(loans, 1);
    assert TakenFromAll(loans, 1) == TakenFromAll([], 1) + Taken(l, 1) == 0;
  }

  // ---------------------------------------------------------------- the records themselves

  class PayrollBook {
    var loans: seq<Loan>
    var slips: seq<Slip>

    ghost function Value(): Payroll
      reads this
    {
      Payroll(loans, slips)
    }

    constructor (given: seq<Loan>)
      ensures Value() == Payroll(given, [])
    {
      loans, slips := given, [];
    }

    method Register(i: nat, amount: int) returns (actual: int)
      requires i < |loans|
      modifies this
      ensures slips == old(slips) && loans == old(loans)[i := RegisterPayment(old(loans)[i], amount)]
      ensures actual == if Remaining(old(loans)[i]) <= 0 then 0 else MinInt(amount, Remaining(old(loans)[i]))
    {
      var l := loans[i];
      if Remaining(l) <= 0 {
        assert loans == loans[i := l];
        return 0;
      }
      actual := MinInt(amount, Remaining(l));
      var after := l.(payments := l.payments + [actual]);
      if Remaining(after) <= 0 {
        after := after.(status := Paid);
      } else if l.status == Approved {
        after := after.(status := Paying);
      }
      loans := loans[i := after];
    }

    method LoanDeductions(employee: Option<nat>) returns (total: int)
      ensures total == if employee.Some? then Deductions(loans, employee.value) else 0
    {
      total := 0;
      if employee.None? { return; }
      for i := 0 to |loans|
        invariant total == Deductions(loans[..i], employee.value)
      {
        assert loans[..i + 1][..i] == loans[..i];
        if Active(loans[i], employee.value) {
          total := total + MinInt(loans[i].installment, Remaining(loans[i]));
        }
      }
      assert loans[..|loans|] == loans;
    }

    method CreateSlip(employee: Option<nat>)
      modifies this
      ensures Value() == Step(old(Value()), NewSlip(employee))
    {
      slips := slips + [Slip(employee, SlipDraft, 0)];
    }

    method CreatePayment(i: nat, amount: int)
      requires i < |loans|
      modifies this
      ensures Value() == Step(old(Value()), EnterPayment(i, amount))
    {
      loans := loans[i := loans[i].(payments := loans[i].payments + [amount])];
    }

    method Pay(i: nat, amount: int) returns (actual: int)
      requires i < |loans|
      modifies this
      ensures Value() == Step(old(Value()), PayLoan(i, amount))
    {
      actual := Register(i, amount);
    }

    method SetStatus(i: nat, status: LoanStatus)
      requires i < |loans|
      modifies this
      ensures Value() == Step(old(Value()), SetLoanStatus(i, status))
    {
      loans := loans[i := loans[i].(status := status)];
    }

    method ActionCancel(s: nat)
      requires s < |slips|
      modifies this
      ensures Value() == Step(old(Value()), CancelSlip(s))
    {
      slips := slips[s := slips[s].(status := SlipCancelled)];
    }

    /** The charges of a confirmed slip stay. */
    method ActionResetDraft(s: nat)
      requires s < |slips|
      modifies this
      ensures Value() == Step(old(Value()), ResetSlip(s))
    {
      slips := slips[s := slips[s].(status := SlipDraft)];
    }

    method ActionCompute(s: nat) returns (ok: bool)
      modifies this
      ensures Value() == Step(old(Value()), ComputeSlip(s))
      ensures ok <==> s < |old(slips)| && old(slips)[s].status == SlipDraft
    {
      if s >= |slips| || slips[s].status != SlipDraft { return false; }
      var d := LoanDeductions(slips[s].employee);
      slips := slips[s := slips[s].(status := Computed, loanDeductions := d)];
      ok := true;
    }

    method ChargeLoans(employee: nat)
      modifies this
      ensures slips == old(slips) && loans == ChargeAll(old(loans), employee)
    {
      for i := 0 to |loans|
        invariant slips == old(slips) && |loans| == |old(loans)|
        invariant forall k :: 0 <= k < |loans| ==>
          loans[k] == if k < i then Charge(old(loans)[k], employee) else old(loans)[k]
      {
        if Active(loans[i], employee) {
          var installment := MinInt(loans[i].installment, Remaining(loans[i]));
          if installment > 0 {
            var _ := Register(i, installment);
          }
        }
      }
      assert loans == ChargeAll(old(loans), employee);
    }

    method ActionConfirm(s: nat) returns (ok: bool)
      modifies this
      ensures Value() == Step(old(Value()), ConfirmSlip(s))
      ensures ok <==> Confirms(old(Value()), s)
    {
      if s >= |slips| || slips[s].status != Computed { return false; }
      if slips[s].employee.Some? {
        ChargeLoans(slips[s].employee.value);
      }
      slips := slips[s := slips[s].(status := Done)];
      ok := true;
    }
  }
}
