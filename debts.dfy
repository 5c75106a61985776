/** The debt book: debts, their payment plans and the plans' installments,
    with the three debt routes that change them (create a debt, create a
    payment plan, record a payment). Every route runs as one transaction:
    on an error reply nothing has changed. */
module Debts {
  import opened Common
  import opened PaymentSchedule
  import opened PaymentAllocation
  import Auth

  /** The roles the debt routes admit (`authorize('supervisor', 'ceo')`). */
  const Managers: seq<Role> := [Supervisor, Ceo]

  /** A debt's status: 'pending' or 'paid'. */
  datatype DebtStatus = DebtPending | DebtPaid

  datatype PlanStatus = Active | Completed | Defaulted

  /** A Debt row: amount in cents, due date as a day number. */
  datatype Debt = Debt(
    salesPersonId: Uuid,
    amount: int,
    status: DebtStatus,
    dueDate: int,
    invoiceId: Option<Uuid>,
    notes: Option<string>)

  /** A PaymentPlan row. */
  datatype Plan = Plan(
    debtId: Uuid,
    totalAmount: int,
    installmentAmount: int,
    frequency: Frequency,
    startDate: int,
    endDate: int,
    status: PlanStatus,
    createdBy: Uuid)

  /** The debt update of the payment route: the payment comes off the amount,
      and the debt is paid exactly when nothing is left. */
  function PayDown(debt: Debt, payment: int): (d: Debt)
    ensures d.amount == debt.amount - payment
    ensures d.status == DebtPaid <==> d.amount == 0
    ensures d.(amount := debt.amount, status := debt.status) == debt
  {
    var newAmount := debt.amount - payment;
    debt.(amount := newAmount, status := if newAmount == 0 then DebtPaid else DebtPending)
  }

  /** Whether the debt has a plan with status 'active'. */
  predicate HasActivePlan(plans: map<Uuid, Plan>, debtId: Uuid) {
    exists p :: p in plans && plans[p].debtId == debtId && plans[p].status == Active
  }

  /** What a plan's installment rows look like at all times: numbered from 1,
      due on strictly increasing dates no later than the plan's end date, each
      within range and paid exactly when covered. */
  predicate WellFormedRows(rows: seq<Installment>, endDate: int) {
    && NumberedFrom(rows, 1)
    && DueDatesIncrease(rows)
    && DueBy(rows, endDate)
    && RowsConsistent(rows)
  }

  /** A freshly generated schedule is well formed and asks for no more than
      the principal it was generated for. */
  lemma PlanScheduleWellFormed(principal: int, installmentAmount: int, frequency: Frequency,
                               startDate: int, endDate: int, addMonth: int -> int)
    requires installmentAmount > 0 && principal >= 0
    requires Advances(addMonth)
    ensures WellFormedRows(PlanSchedule(principal, installmentAmount, frequency, startDate, endDate, addMonth), endDate)
    ensures Outstanding(PlanSchedule(principal, installmentAmount, frequency, startDate, endDate, addMonth)) <= principal
  {
    var rows := PlanSchedule(principal, installmentAmount, frequency, startDate, endDate, addMonth);
    ScheduleShape(1, startDate, principal, installmentAmount, frequency, endDate, addMonth);
    SpacedDatesIncrease(rows, frequency, addMonth);
    ScheduleAmounts(1, startDate, principal, installmentAmount, frequency, endDate, addMonth);
    ScheduleCoverage(1, startDate, principal, installmentAmount, frequency, endDate, addMonth);
    OutstandingOfUnpaid(rows);
  }

  /** Allocation keeps a plan's rows well formed, and what they owe never
      exceeds the debt once the same payment has come off both. */
  lemma AllocationKeepsRows(rows: seq<Installment>, endDate: int, debtAmount: int, payment: int, today: int)
    requires WellFormedRows(rows, endDate)
    requires Outstanding(rows) <= debtAmount
    requires 0 <= payment <= debtAmount
    ensures WellFormedRows(Waterfall(rows, payment, today), endDate)
    ensures Outstanding(Waterfall(rows, payment, today)) <= debtAmount - payment
  {
    var w := Waterfall(rows, payment, today);
    WaterfallKeepsRows(rows, payment, today);
    WaterfallConsistent(rows, payment, today);
    WaterfallTotal(rows, payment, today);
    assert forall i :: 0 <= i < |w| ==> w[i].number == rows[i].number && w[i].dueDate == rows[i].dueDate;
  }

  /** What holds of a plan at all times: it is active, its debt exists, its
      rows are well formed and owe no more than the debt's current amount. */
  ghost predicate PlanHolds(debts: map<Uuid, Debt>, plans: map<Uuid, Plan>,
                            installments: map<Uuid, seq<Installment>>, p: Uuid)
    requires p in plans && p in installments
  {
    var plan := plans[p];
    && plan.status == Active
    && plan.installmentAmount > 0
    && plan.debtId in debts
    && WellFormedRows(installments[p], plan.endDate)
    && Outstanding(installments[p]) <= debts[plan.debtId].amount
  }

  /** At most one plan per debt: creation is refused while an active plan
      exists, and no route ends a plan. */
  ghost predicate OnePlanPerDebt(plans: map<Uuid, Plan>) {
    forall p, q :: p in plans && q in plans && plans[p].debtId == plans[q].debtId ==> p == q
  }

  predicate DebtConsistent(debt: Debt) {
    debt.amount >= 0 && (debt.status == DebtPaid <==> debt.amount == 0)
  }

  /** The invariant of the debt tables. */
  ghost predicate BookValid(debts: map<Uuid, Debt>, plans: map<Uuid, Plan>,
                            installments: map<Uuid, seq<Installment>>)
  {
    && installments.Keys == plans.Keys
    && (forall d :: d in debts ==> DebtConsistent(debts[d]))
    && (forall p :: p in plans ==> PlanHolds(debts, plans, installments, p))
    && OnePlanPerDebt(plans)
  }

  /** `ON DELETE SET NULL` of the nullable `debts.invoice_id`: when an
      invoice is deleted, every debt that names it loses the link, and
      nothing else about any debt changes. */
  function Unlinked(debts: map<Uuid, Debt>, invoiceId: Uuid): (r: map<Uuid, Debt>)
    ensures r.Keys == debts.Keys
    ensures forall d :: d in r ==> r[d].invoiceId != Some(invoiceId)
    ensures forall d :: d in r && debts[d].invoiceId == Some(invoiceId) ==> r[d] == debts[d].(invoiceId := None)
    ensures forall d :: d in r && debts[d].invoiceId != Some(invoiceId) ==> r[d] == debts[d]
  {
    map d | d in debts :: if debts[d].invoiceId == Some(invoiceId) then debts[d].(invoiceId := None) else debts[d]
  }

  /** Unlinking a deleted invoice keeps the tables valid: amounts, statuses
      and the debts themselves stay. */
  lemma UnlinkKeepsValid(debts: map<Uuid, Debt>, plans: map<Uuid, Plan>,
                         installments: map<Uuid, seq<Installment>>, invoiceId: Uuid)
    requires BookValid(debts, plans, installments)
    ensures BookValid(Unlinked(debts, invoiceId), plans, installments)
  {
    var after := Unlinked(debts, invoiceId);
    forall d | d in after
      ensures after[d].amount == debts[d].amount && after[d].status == debts[d].status
    {
    }
    forall p | p in plans
      ensures PlanHolds(after, plans, installments, p)
    {
      assert PlanHolds(debts, plans, installments, p);
    }
  }

  /** A new debt under a fresh id keeps the tables valid. */
  lemma NewDebtKeepsValid(debts: map<Uuid, Debt>, plans: map<Uuid, Plan>,
                          installments: map<Uuid, seq<Installment>>, id: Uuid, debt: Debt)
    requires BookValid(debts, plans, installments)
    requires id !in debts && DebtConsistent(debt)
    ensures BookValid(debts[id := debt], plans, installments)
  {
    forall p | p in plans
      ensures PlanHolds(debts[id := debt], plans, installments, p)
    {
      assert PlanHolds(debts, plans, installments, p);
    }
  }

  /** A new active plan for a debt that has none, with a freshly generated
      schedule, keeps the tables valid. */
  lemma NewPlanKeepsValid(debts: map<Uuid, Debt>, plans: map<Uuid, Plan>,
                          installments: map<Uuid, seq<Installment>>, planId: Uuid, plan: Plan,
                          rows: seq<Installment>)
    requires BookValid(debts, plans, installments)
    requires planId !in plans && !HasActivePlan(plans, plan.debtId)
    requires plan.status == Active && plan.installmentAmount > 0 && plan.debtId in debts
    requires WellFormedRows(rows, plan.endDate) && Outstanding(rows) <= debts[plan.debtId].amount
    ensures BookValid(debts, plans[planId := plan], installments[planId := rows])
  {
    var plans' := plans[planId := plan];
    var installments' := installments[planId := rows];
    forall p | p in plans'
      ensures PlanHolds(debts, plans', installments', p)
    {
      if p != planId {
        assert PlanHolds(debts, plans, installments, p);
      }
    }
    forall p, q | p in plans' && q in plans' && plans'[p].debtId == plans'[q].debtId
      ensures p == q
    {
      if p != planId {
        assert plans[p].status == Active by { assert PlanHolds(debts, plans, installments, p); }
      }
      if q != planId {
        assert plans[q].status == Active by { assert PlanHolds(debts, plans, installments, q); }
      }
    }
  }

  /** The installments after a payment on `debtId`: the rows of the debt's
      plan have had the payment spread over them, and every other plan's rows
      are as they were. */
  predicate PaymentSpread(before: map<Uuid, seq<Installment>>, plans: map<Uuid, Plan>, debtId: Uuid,
                          amount: int, today: int, after: map<Uuid, seq<Installment>>)
  {
    && after.Keys == before.Keys
    && forall p :: p in plans && p in before ==>
         after[p] == if plans[p].debtId == debtId then Waterfall(before[p], amount, today) else before[p]
  }

  /** Spreading a payment over the rows of the debt's plan. */
  method SpreadPayment(plans: map<Uuid, Plan>, installments: map<Uuid, seq<Installment>>, debtId: Uuid,
                       amount: int, today: int) returns (after: map<Uuid, seq<Installment>>)
    requires OnePlanPerDebt(plans)
    ensures PaymentSpread(installments, plans, debtId, amount, today, after)
  {
    after := installments;
    if planId :| planId in plans && planId in installments && plans[planId].debtId == debtId {
      var updatedRows := Allocate(installments[planId], amount, today);
      after := installments[planId := updatedRows];
    }
  }

  /** Paying down a debt, with the payment spread over its plan's rows (if
      it has a plan), keeps the tables valid. */
  lemma PaymentKeepsValid(debts: map<Uuid, Debt>, plans: map<Uuid, Plan>,
                          installments: map<Uuid, seq<Installment>>, debtId: Uuid, amount: int,
                          today: int, after: map<Uuid, seq<Installment>>)
    requires BookValid(debts, plans, installments)
    requires debtId in debts && 0 <= amount <= debts[debtId].amount
    requires PaymentSpread(installments, plans, debtId, amount, today, after)
    ensures BookValid(debts[debtId := PayDown(debts[debtId], amount)], plans, after)
  {
    var debts' := debts[debtId := PayDown(debts[debtId], amount)];
    forall p | p in plans
      ensures PlanHolds(debts', plans, after, p)
    {
      assert PlanHolds(debts, plans, installments, p);
      if plans[p].debtId == debtId {
        AllocationKeepsRows(installments[p], plans[p].endDate, debts[debtId].amount, amount, today);
      }
    }
  }

  class DebtBook {
    var debts: map<Uuid, Debt>
    var plans: map<Uuid, Plan>
    /** The installment rows of each plan, keyed by plan id, in due-date order. */
    var installments: map<Uuid, seq<Installment>>

    ghost predicate Valid()
      reads this
    {
      BookValid(debts, plans, installments)
    }

    constructor ()
      ensures Valid()
      ensures debts == map[] && plans == map[] && installments == map[]
    {
      debts := map[];
      plans := map[];
      installments := map[];
    }

    /** The database's side of deleting invoice `invoiceId`: the debts that
        named it keep existing, without the link. */
    method UnlinkInvoice(invoiceId: Uuid)
      requires Valid()
      modifies this
      ensures Valid()
      ensures debts == Unlinked(old(debts), invoiceId)
      ensures plans == old(plans) && installments == old(installments)
    {
      UnlinkKeepsValid(debts, plans, installments, invoiceId);
      debts := Unlinked(debts, invoiceId);
    }

    /** POST /debts: supervisors and the CEO record a debt of at least one
        cent against a salesperson; it starts pending. */
    method CreateDebt(caller: User, id: Uuid, salesPersonId: string, amount: int, dueDate: int,
                      invoiceId: Option<string>, notes: Option<string>) returns (r: Result<Debt>)
      requires Valid()
      modifies this
      ensures Valid()
      ensures !Auth.Permits(caller, Managers) ==> r == Err(Forbidden)
      ensures (Auth.Permits(caller, Managers) && (!IsUuid(salesPersonId) || amount < 1 || !OptionalUuid(invoiceId)))
                ==> r == Err(BadRequest)
      ensures (Auth.Permits(caller, Managers) && IsUuid(salesPersonId) && amount >= 1 && OptionalUuid(invoiceId)
               && id in old(debts)) ==> r == Err(Conflict)
      ensures r.Ok? <==>
                && Auth.Permits(caller, Managers) && IsUuid(salesPersonId) && amount >= 1 && OptionalUuid(invoiceId)
                && id !in old(debts)
      ensures r.Err? ==> debts == old(debts)
      ensures r.Ok? ==>
                && r.value == Debt(salesPersonId, amount, DebtPending, dueDate, invoiceId,
                                   if notes.Some? then Some(Trim(notes.value)) else None)
                && debts == old(debts)[id := r.value]
      ensures plans == old(plans) && installments == old(installments)
    {
      if !Auth.Permits(caller, Managers) {
        return Err(Forbidden);
      }
      if !IsUuid(salesPersonId) || amount < 1 || !OptionalUuid(invoiceId) {
        return Err(BadRequest);
      }
      if id in debts {
        return Err(Conflict);
      }
      var debt := Debt(salesPersonId, amount, DebtPending, dueDate, invoiceId,
                       if notes.Some? then Some(Trim(notes.value)) else None);
      NewDebtKeepsValid(debts, plans, installments, id, debt);
      debts := debts[id := debt];
      r := Ok(debt);
    }

    /** POST /debts/:id/payment-plan: creates an active plan for the whole
        current amount of the debt and generates its installments. */
    method CreatePaymentPlan(caller: User, debtId: Uuid, installmentAmount: int, frequency: Frequency,
                             startDate: int, endDate: int, planId: Uuid, addMonth: int -> int)
      returns (r: Result<seq<Installment>>)
      requires Valid()
      requires Advances(addMonth)
      modifies this
      ensures Valid()
      ensures !Auth.Permits(caller, Managers) ==> r == Err(Forbidden)
      ensures (Auth.Permits(caller, Managers) && installmentAmount < 1) ==> r == Err(BadRequest)
      ensures (Auth.Permits(caller, Managers) && installmentAmount >= 1 && debtId !in old(debts)) ==> r == Err(NotFound)
      ensures (Auth.Permits(caller, Managers) && installmentAmount >= 1 && debtId in old(debts)
               && HasActivePlan(old(plans), debtId)) ==> r == Err(BadRequest)
      ensures (Auth.Permits(caller, Managers) && installmentAmount >= 1 && debtId in old(debts)
               && !HasActivePlan(old(plans), debtId) && planId in old(plans)) ==> r == Err(Conflict)
      ensures r.Ok? <==>
                && Auth.Permits(caller, Managers) && installmentAmount >= 1 && debtId in old(debts)
                && !HasActivePlan(old(plans), debtId) && planId !in old(plans)
      ensures r.Err? ==> plans == old(plans) && installments == old(installments)
      ensures r.Ok? ==>
                && plans == old(plans)[planId := Plan(debtId, old(debts)[debtId].amount, installmentAmount, frequency,
                                                      startDate, endDate, Active, caller.id)]
                && r.value == PlanSchedule(old(debts)[debtId].amount, installmentAmount, frequency, startDate, endDate, addMonth)
                && installments == old(installments)[planId := r.value]
      ensures (r.Ok? && startDate > endDate) ==> r.value == []
      ensures debts == old(debts)
    {
      if !Auth.Permits(caller, Managers) {
        return Err(Forbidden);
      }
      if installmentAmount < 1 {
        return Err(BadRequest);
      }
      if debtId !in debts {
        return Err(NotFound);
      }
      var debt := debts[debtId];
      if HasActivePlan(plans, debtId) {
        return Err(BadRequest);
      }
      if planId in plans {
        return Err(Conflict);
      }
      var plan := Plan(debtId, debt.amount, installmentAmount, frequency, startDate, endDate, Active, caller.id);
      var rows := GenerateInstallments(debt.amount, installmentAmount, frequency, startDate, endDate, addMonth);
      PlanScheduleWellFormed(debt.amount, installmentAmount, frequency, startDate, endDate, addMonth);
      ScheduleEmpty(1, startDate, debt.amount, installmentAmount, frequency, endDate, addMonth);
      NewPlanKeepsValid(debts, plans, installments, planId, plan, rows);
      plans := plans[planId := plan];
      installments := installments[planId := rows];
      r := Ok(rows);
    }

    /** POST /debts/:id/payment: the payment comes off the debt and is then
        spread oldest first over the installments of the debt's plan, if any. */
    method RecordPayment(caller: User, debtId: Uuid, amount: int, today: int) returns (r: Result<Debt>)
      requires Valid()
      modifies this
      ensures Valid()
      ensures !Auth.Permits(caller, Managers) ==> r == Err(Forbidden)
      ensures (Auth.Permits(caller, Managers) && amount < 1) ==> r == Err(BadRequest)
      ensures (Auth.Permits(caller, Managers) && amount >= 1 && debtId !in old(debts)) ==> r == Err(NotFound)
      ensures (Auth.Permits(caller, Managers) && amount >= 1 && debtId in old(debts)
               && amount > old(debts)[debtId].amount) ==> r == Err(BadRequest)
      ensures r.Ok? <==>
                && Auth.Permits(caller, Managers) && amount >= 1 && debtId in old(debts)
                && amount <= old(debts)[debtId].amount
      ensures r.Err? ==> debts == old(debts) && installments == old(installments)
      ensures r.Ok? ==>
                && r.value == PayDown(old(debts)[debtId], amount)
                && debts == old(debts)[debtId := r.value]
                && PaymentSpread(old(installments), plans, debtId, amount, today, installments)
      ensures plans == old(plans)
    {
      if !Auth.Permits(caller, Managers) {
        return Err(Forbidden);
      }
      if amount < 1 {
        return Err(BadRequest);
      }
      if debtId !in debts {
        return Err(NotFound);
      }
      if amount > debts[debtId].amount {
        return Err(BadRequest);
      }
      var updatedDebt := PayDown(debts[debtId], amount);
      var updatedInstallments := SpreadPayment(plans, installments, debtId, amount, today);
      PaymentKeepsValid(debts, plans, installments, debtId, amount, today, updatedInstallments);
      debts, installments := debts[debtId := updatedDebt], updatedInstallments;
      r := Ok(updatedDebt);
    }

    /** Once a debt is paid off, every installment of its plan is paid. */
    lemma SettledDebtSettlesPlan(p: Uuid)
      requires Valid()
      requires p in plans && debts[plans[p].debtId].status == DebtPaid
      ensures forall i :: 0 <= i < |installments[p]| ==> installments[p][i].status == Paid
    {
      assert PlanHolds(debts, plans, installments, p);
      NothingOutstandingAllPaid(installments[p]);
    }
  }
}
