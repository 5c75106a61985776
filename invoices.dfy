/** The invoice book: invoices and their payment ledger, with the routes
    that read and change them. An invoice goes pending -> approved or
    rejected, and becomes cleared once its balance reaches zero; approved
    and cleared invoices can be reconciled, pending ones deleted. Every
    change is saved through the Invoice hooks. */
module Invoices {
  import opened Common
  import opened Text
  import opened InvoiceModel
  import Auth
  import Debts

  /** The roles admitted by `authorize('supervisor', 'ceo')`. */
  const Managers: seq<Role> := [Supervisor, Ceo]

  datatype PaymentMethod = Cash | BankTransfer | Cheque | MobileMoney

  /** An InvoicePayment row. */
  datatype InvoicePayment = InvoicePayment(
    invoiceId: Uuid,
    amount: int,
    paymentDate: int,
    paymentMethod: PaymentMethod,
    referenceNumber: Option<string>,
    recordedBy: Uuid,
    notes: Option<string>)

  // ---------------------------------------------------------------------------
  // Invoice numbers

  /** "INV-" followed by the year and the two-digit month. */
  function InvoicePrefix(year: nat, month: nat): string {
    SerialPrefix("INV", year, month)
  }

  /** How many invoices already carry a number starting with `prefix`. */
  function CountWithPrefix(invoices: map<Uuid, Invoice>, prefix: string): nat {
    |set id | id in invoices && StartsWith(invoices[id].number, prefix)|
  }

  /** `generateInvoiceNumber`: the month's prefix, a hyphen, and one more
      than the number of invoices carrying the prefix, in at least five digits. */
  function GenerateInvoiceNumber(invoices: map<Uuid, Invoice>, year: nat, month: nat): (n: string)
    ensures StartsWith(n, InvoicePrefix(year, month) + "-")
    ensures AllDigits(n[|InvoicePrefix(year, month)| + 1..])
    ensures |n[|InvoicePrefix(year, month)| + 1..]| >= 5
    ensures DigitsValue(n[|InvoicePrefix(year, month)| + 1..]) == CountWithPrefix(invoices, InvoicePrefix(year, month)) + 1
  {
    var count := CountWithPrefix(invoices, InvoicePrefix(year, month));
    SerialNumberShape("INV", year, month, count, 5);
    SerialNumber("INV", year, month, count, 5)
  }

  /** For a four-digit year and a month from 1 to 12, the number is
      "INV-YYYYMM-" followed by the suffix, and it is exactly 16 characters long
      while fewer than 99999 invoices carry the prefix. */
  lemma InvoiceNumberLayout(invoices: map<Uuid, Invoice>, year: nat, month: nat)
    requires 1000 <= year <= 9999 && 1 <= month <= 12
    ensures |InvoicePrefix(year, month)| == 10
    ensures CountWithPrefix(invoices, InvoicePrefix(year, month)) < 99999 ==>
              |GenerateInvoiceNumber(invoices, year, month)| == 16
  {
    SerialPrefixLength("INV", year, month);
    var count := CountWithPrefix(invoices, InvoicePrefix(year, month));
    if count < 99999 {
      assert Pow10(5) == 100000;
      ShortNumberPadsToWidth(count + 1, 5);
    }
  }

  predicate NumberTaken(invoices: map<Uuid, Invoice>, number: string) {
    exists id :: id in invoices && invoices[id].number == number
  }

  // ---------------------------------------------------------------------------
  // The payment ledger

  /** What the ledger records as paid to invoice `id`. */
  function PaidTo(payments: seq<InvoicePayment>, id: Uuid): int {
    if payments == [] then 0
    else PaidTo(payments[..|payments| - 1], id)
         + (if payments[|payments| - 1].invoiceId == id then payments[|payments| - 1].amount else 0)
  }

  /** The ledger without the payments of invoice `id`, order kept. */
  function PaymentsWithout(payments: seq<InvoicePayment>, id: Uuid): (rest: seq<InvoicePayment>)
    ensures |rest| <= |payments|
    ensures forall i :: 0 <= i < |rest| ==> rest[i].invoiceId != id && rest[i] in payments
  {
    if payments == [] then []
    else PaymentsWithout(payments[..|payments| - 1], id)
         + (if payments[|payments| - 1].invoiceId == id then [] else [payments[|payments| - 1]])
  }

  lemma PaidToAppend(payments: seq<InvoicePayment>, p: InvoicePayment, id: Uuid)
    ensures PaidTo(payments + [p], id) == PaidTo(payments, id) + (if p.invoiceId == id then p.amount else 0)
  {
    assert (payments + [p])[..|payments|] == payments;
  }

  /** An invoice no payment refers to has been paid nothing. */
  lemma {:induction false} PaidToUnreferenced(payments: seq<InvoicePayment>, id: Uuid)
    requires forall i :: 0 <= i < |payments| ==> payments[i].invoiceId != id
    ensures PaidTo(payments, id) == 0
  {
    if payments != [] {
      PaidToUnreferenced(payments[..|payments| - 1], id);
    }
  }

  /** Removing one invoice's payments leaves what every other invoice was paid. */
  lemma {:induction false} PaidToWithout(payments: seq<InvoicePayment>, gone: Uuid, id: Uuid)
    requires id != gone
    ensures PaidTo(PaymentsWithout(payments, gone), id) == PaidTo(payments, id)
  {
    if payments != [] {
      var init := payments[..|payments| - 1];
      var last := payments[|payments| - 1];
      PaidToWithout(init, gone, id);
      if last.invoiceId != gone {
        PaidToAppend(PaymentsWithout(init, gone), last, id);
      } else {
        assert PaymentsWithout(payments, gone) == PaymentsWithout(init, gone);
      }
    }
  }

  // ---------------------------------------------------------------------------
  // Row updates

  /** The totals update of the payment route: the payment is added to what was
      paid, the balance is what remains, and the invoice is cleared exactly when
      nothing remains; otherwise its status is kept. */
  function Credit(inv: Invoice, payment: int): (r: Invoice)
    ensures r.totalPaid == inv.totalPaid + payment
    ensures r.balance == r.amount - r.totalPaid
    ensures r.status == if r.balance == 0 then Cleared else inv.status
    ensures r.(totalPaid := inv.totalPaid, balance := inv.balance, status := inv.status) == inv
  {
    var newTotalPaid := inv.totalPaid + payment;
    var newBalance := inv.amount - newTotalPaid;
    inv.(totalPaid := newTotalPaid, balance := newBalance, status := if newBalance == 0 then Cleared else inv.status)
  }

  /** The approve/reject update: the new status, who decided and when, and the
      trimmed rejection reason only when the invoice is rejected. */
  function Decide(inv: Invoice, newStatus: InvoiceStatus, rejectionReason: Option<string>,
                  approver: Uuid, now: int): (r: Invoice)
    ensures r.status == newStatus && r.approvedBy == Some(approver) && r.approvedDate == Some(now)
    ensures r.rejectionReason == if newStatus == Rejected && rejectionReason.Some? then TrimOption(rejectionReason)
                                 else inv.rejectionReason
    ensures r.(status := inv.status, approvedBy := inv.approvedBy, approvedDate := inv.approvedDate,
               rejectionReason := inv.rejectionReason) == inv
  {
    var decided := inv.(status := newStatus, approvedBy := Some(approver), approvedDate := Some(now));
    if newStatus == Rejected && rejectionReason.Some? then decided.(rejectionReason := TrimOption(rejectionReason))
    else decided
  }

  /** The reconcile update: the flag is set, with who and when; notes that
      are sent replace the stored ones (trimmed), and a request without notes
      keeps them, since the update skips undefined values. Amounts and status
      are untouched. */
  function MarkReconciled(inv: Invoice, reconciler: Uuid, now: int, notes: Option<string>): (r: Invoice)
    ensures r.reconciled && r.reconciledBy == Some(reconciler) && r.reconciledDate == Some(now)
    ensures r.reconciliationNotes == if notes.Some? then TrimOption(notes) else inv.reconciliationNotes
    ensures r.amount == inv.amount && r.totalPaid == inv.totalPaid && r.balance == inv.balance && r.status == inv.status
    ensures r.(reconciled := inv.reconciled, reconciledBy := inv.reconciledBy, reconciledDate := inv.reconciledDate,
               reconciliationNotes := inv.reconciliationNotes) == inv
  {
    var marked := inv.(reconciled := true, reconciledBy := Some(reconciler), reconciledDate := Some(now));
    if notes.Some? then marked.(reconciliationNotes := TrimOption(notes)) else marked
  }

  // ---------------------------------------------------------------------------
  // The invariant of the invoice tables

  /** A saved invoice: at least one cent, paid between nothing and its amount,
      its balance what remains, cleared exactly when nothing remains, and
      reconciled only once approved or cleared. */
  predicate InvoiceConsistent(inv: Invoice) {
    && inv.amount >= 1
    && 0 <= inv.totalPaid <= inv.amount
    && BalanceAgrees(inv)
    && (inv.status == Cleared <==> inv.balance == 0)
    && (inv.reconciled ==> inv.status == Approved || inv.status == Cleared)
  }

  ghost predicate UniqueNumbers(invoices: map<Uuid, Invoice>) {
    forall a, b :: a in invoices && b in invoices && invoices[a].number == invoices[b].number ==> a == b
  }

  /** Every invoice is consistent and its total paid is what the ledger
      records for it; every payment belongs to an existing invoice; numbers
      are unique. */
  ghost predicate BookValid(invoices: map<Uuid, Invoice>, payments: seq<InvoicePayment>) {
    && (forall id :: id in invoices ==> InvoiceConsistent(invoices[id]) && invoices[id].totalPaid == PaidTo(payments, id))
    && (forall i :: 0 <= i < |payments| ==> payments[i].invoiceId in invoices)
    && UniqueNumbers(invoices)
  }

  /** A consistent new invoice, with nothing paid and a fresh id and number,
      keeps the tables valid. */
  lemma NewInvoiceKeepsValid(invoices: map<Uuid, Invoice>, payments: seq<InvoicePayment>, id: Uuid, inv: Invoice)
    requires BookValid(invoices, payments)
    requires id !in invoices && !NumberTaken(invoices, inv.number)
    requires InvoiceConsistent(inv) && inv.totalPaid == 0
    ensures BookValid(invoices[id := inv], payments)
  {
    PaidToUnreferenced(payments, id);
  }

  /** Rewriting one invoice with a consistent row that keeps its number and
      its total paid keeps the tables valid. */
  lemma RowUpdateKeepsValid(invoices: map<Uuid, Invoice>, payments: seq<InvoicePayment>, id: Uuid, inv: Invoice)
    requires BookValid(invoices, payments)
    requires id in invoices && InvoiceConsistent(inv)
    requires inv.number == invoices[id].number && inv.totalPaid == invoices[id].totalPaid
    ensures BookValid(invoices[id := inv], payments)
  {
  }

  /** A payment of at least one cent and at most the balance keeps the
      invoice consistent: what was paid never exceeds the amount and the
      balance never goes negative. */
  lemma CreditKeepsConsistent(inv: Invoice, payment: int)
    requires InvoiceConsistent(inv)
    requires 1 <= payment <= inv.balance
    ensures InvoiceConsistent(Credit(inv, payment))
    ensures 0 <= Credit(inv, payment).balance < inv.balance
  {
  }

  /** An accepted payment, recorded in the ledger and credited to its
      invoice, keeps the tables valid. */
  lemma PaymentKeepsValid(invoices: map<Uuid, Invoice>, payments: seq<InvoicePayment>, p: InvoicePayment)
    requires BookValid(invoices, payments)
    requires p.invoiceId in invoices && 1 <= p.amount <= invoices[p.invoiceId].balance
    ensures BookValid(invoices[p.invoiceId := Credit(invoices[p.invoiceId], p.amount)], payments + [p])
  {
    CreditKeepsConsistent(invoices[p.invoiceId], p.amount);
    forall id | id in invoices
      ensures PaidTo(payments + [p], id) == PaidTo(payments, id) + (if p.invoiceId == id then p.amount else 0)
    {
      PaidToAppend(payments, p, id);
    }
  }

  /** Deleting an invoice together with its payments keeps the tables valid. */
  lemma DeleteKeepsValid(invoices: map<Uuid, Invoice>, payments: seq<InvoicePayment>, id: Uuid)
    requires BookValid(invoices, payments)
    ensures BookValid(invoices - {id}, PaymentsWithout(payments, id))
  {
    var rest := PaymentsWithout(payments, id);
    forall other | other in invoices - {id}
      ensures PaidTo(rest, other) == PaidTo(payments, other)
    {
      PaidToWithout(payments, id, other);
    }
  }

  // ---------------------------------------------------------------------------
  // Visibility

  /** A salesperson sees only the invoices they own; other roles see all. */
  predicate MaySee(caller: User, inv: Invoice) {
    caller.role != Salesperson || inv.salesPersonId == caller.id
  }

  /** The `isBoolean()` query validator: "true", "false", "1" or "0". */
  predicate IsBooleanText(s: string) {
    s == "true" || s == "false" || s == "1" || s == "0"
  }

  /** Whether an invoice passes the list filters: a status filter, a
      salesperson filter, and a reconciled filter that asks for reconciled
      invoices only when it reads exactly "true". */
  predicate PassesFilters(inv: Invoice, status: Option<InvoiceStatus>, salesPersonId: Option<string>,
                          reconciled: Option<string>)
  {
    && (status.Some? ==> inv.status == status.value)
    && (salesPersonId.Some? ==> inv.salesPersonId == salesPersonId.value)
    && (reconciled.Some? ==> inv.reconciled == (reconciled.value == "true"))
  }

  class InvoiceBook {
    var invoices: map<Uuid, Invoice>
    /** The InvoicePayment rows in the order they were recorded. */
    var payments: seq<InvoicePayment>

    ghost predicate Valid()
      reads this
    {
      BookValid(invoices, payments)
    }

    constructor ()
      ensures Valid()
      ensures invoices == map[] && payments == []
    {
      invoices := map[];
      payments := [];
    }

    /** Writes a row through the `beforeCreate`/`beforeUpdate` hooks. */
    method Save(id: Uuid, inv: Invoice)
      modifies this
      ensures invoices == old(invoices)[id := BeforeSave(inv)]
      ensures payments == old(payments)
    {
      var saved := inv.(balance := inv.amount - inv.totalPaid);
      invoices := invoices[id := saved];
    }

    /** GET /invoices: the invoices that pass the filters; a salesperson's
        own salesperson filter is replaced by their own id. Malformed filters
        are answered 400. */
    function List(caller: User, status: Option<InvoiceStatus>, salesPersonId: Option<string>,
                  reconciled: Option<string>): (r: Result<set<Uuid>>)
      reads this
      ensures r.Err? <==> !OptionalUuid(salesPersonId) || (reconciled.Some? && !IsBooleanText(reconciled.value))
      ensures r.Err? ==> r.status == BadRequest
      ensures r.Ok? ==> forall id :: id in r.value <==>
                id in invoices && MaySee(caller, invoices[id])
                && PassesFilters(invoices[id], status, if caller.role == Salesperson then None else salesPersonId, reconciled)
    {
      if !OptionalUuid(salesPersonId) || (reconciled.Some? && !IsBooleanText(reconciled.value)) then
        Err(BadRequest)
      else
        var owner := if caller.role == Salesperson then Some(caller.id) else salesPersonId;
        Ok(set id | id in invoices && PassesFilters(invoices[id], status, owner, reconciled))
    }

    /** GET /invoices/:id: 404 for an unknown invoice, 403 for a salesperson
        asking for another salesperson's invoice. */
    function Get(caller: User, id: Uuid): (r: Result<Invoice>)
      reads this
      ensures id !in invoices ==> r == Err(NotFound)
      ensures id in invoices ==> (r.Ok? <==> MaySee(caller, invoices[id]))
      ensures id in invoices && !MaySee(caller, invoices[id]) ==> r == Err(Forbidden)
      ensures r.Ok? ==> r.value == invoices[id]
    {
      if id !in invoices then Err(NotFound)
      else if caller.role == Salesperson && invoices[id].salesPersonId != caller.id then Err(Forbidden)
      else Ok(invoices[id])
    }

    /** The unfiltered list holds exactly the invoices the caller may fetch
        one by one. */
    lemma ListAgreesWithGet(caller: User, id: Uuid)
      ensures List(caller, None, None, None).Ok?
      ensures id in List(caller, None, None, None).value <==> Get(caller, id).Ok?
    {
    }

    /** POST /invoices: any signed-in user creates a pending invoice of at
        least one cent. A salesperson always owns what they create; others
        must name the salesperson. */
    method Create(caller: User, id: Uuid, amount: int, salesPersonId: Option<string>, qrCode: Option<string>,
                  imageUrl: Option<string>, now: int, year: nat, month: nat) returns (r: Result<Invoice>)
      requires Valid()
      modifies this
      ensures Valid()
      ensures (amount < 1 || !OptionalUuid(salesPersonId)) ==> r == Err(BadRequest)
      ensures (caller.role != Salesperson && salesPersonId.None?) ==> r == Err(BadRequest)
      ensures r.Ok? <==>
                && amount >= 1 && OptionalUuid(salesPersonId)
                && (caller.role == Salesperson || salesPersonId.Some?)
                && id !in old(invoices) && !NumberTaken(old(invoices), GenerateInvoiceNumber(old(invoices), year, month))
      ensures r.Ok? ==>
                && r.value.salesPersonId == (if caller.role == Salesperson then caller.id else salesPersonId.value)
                && r.value == BeforeSave(NewInvoice(GenerateInvoiceNumber(old(invoices), year, month), amount, now,
                                                    r.value.salesPersonId, TrimOption(qrCode), TrimOption(imageUrl), amount))
                && invoices == old(invoices)[id := r.value]
      ensures r.Err? ==> invoices == old(invoices)
      ensures r.Err? && r.status != BadRequest ==> r.status == Conflict
      ensures (amount >= 1 && OptionalUuid(salesPersonId) && (caller.role == Salesperson || salesPersonId.Some?)
               && (id in old(invoices) || NumberTaken(old(invoices), GenerateInvoiceNumber(old(invoices), year, month))))
                ==> r == Err(Conflict)
      ensures payments == old(payments)
    {
      if amount < 1 || !OptionalUuid(salesPersonId) {
        return Err(BadRequest);
      }
      var finalSalesPersonId: Uuid;
      if caller.role == Salesperson {
        finalSalesPersonId := caller.id;
      } else if salesPersonId.None? {
        return Err(BadRequest);
      } else {
        finalSalesPersonId := salesPersonId.value;
      }
      var number := GenerateInvoiceNumber(invoices, year, month);
      if id in invoices || NumberTaken(invoices, number) {
        // the primary key or the unique invoice number is already in use
        return Err(Conflict);
      }
      var inv := NewInvoice(number, amount, now, finalSalesPersonId, TrimOption(qrCode), TrimOption(imageUrl), amount);
      NewInvoiceKeepsValid(invoices, payments, id, BeforeSave(inv));
      Save(id, inv);
      r := Ok(BeforeSave(inv));
    }

    /** PUT /invoices/:id/status: a pending invoice is approved or rejected. */
    method UpdateStatus(caller: User, id: Uuid, newStatus: InvoiceStatus, rejectionReason: Option<string>,
                        now: int) returns (r: Result<Invoice>)
      requires Valid()
      modifies this
      ensures Valid()
      ensures !Auth.Permits(caller, Managers) ==> r == Err(Forbidden)
      ensures (Auth.Permits(caller, Managers) && newStatus != Approved && newStatus != Rejected) ==> r == Err(BadRequest)
      ensures (Auth.Permits(caller, Managers) && (newStatus == Approved || newStatus == Rejected)
               && id !in old(invoices)) ==> r == Err(NotFound)
      ensures (Auth.Permits(caller, Managers) && (newStatus == Approved || newStatus == Rejected)
               && id in old(invoices) && old(invoices)[id].status != Pending) ==> r == Err(BadRequest)
      ensures r.Ok? <==>
                && Auth.Permits(caller, Managers) && (newStatus == Approved || newStatus == Rejected)
                && id in old(invoices) && old(invoices)[id].status == Pending
      ensures r.Ok? ==>
                && r.value == Decide(old(invoices)[id], newStatus, rejectionReason, caller.id, now)
                && invoices == old(invoices)[id := r.value]
      ensures r.Err? ==> invoices == old(invoices)
      ensures payments == old(payments)
    {
      if !Auth.Permits(caller, Managers) {
        return Err(Forbidden);
      }
      if newStatus != Approved && newStatus != Rejected {
        return Err(BadRequest);
      }
      if id !in invoices {
        return Err(NotFound);
      }
      var inv := invoices[id];
      if inv.status != Pending {
        return Err(BadRequest);
      }
      var decided := Decide(inv, newStatus, rejectionReason, caller.id, now);
      RowUpdateKeepsValid(invoices, payments, id, decided);
      BeforeSaveFixesAgreeingRows(decided);
      Save(id, decided);
      r := Ok(decided);
    }

    /** POST /invoices/:id/payments: a payment of at least one cent and at
        most the balance is recorded and credited to the invoice, whatever the
        invoice's status. */
    method RecordPayment(caller: User, id: Uuid, amount: int, paymentMethod: PaymentMethod,
                         referenceNumber: Option<string>, paymentDate: Option<int>, notes: Option<string>,
                         now: int) returns (r: Result<Invoice>)
      requires Valid()
      modifies this
      ensures Valid()
      ensures !Auth.Permits(caller, Managers) ==> r == Err(Forbidden)
      ensures (Auth.Permits(caller, Managers) && amount < 1) ==> r == Err(BadRequest)
      ensures (Auth.Permits(caller, Managers) && amount >= 1 && id !in old(invoices)) ==> r == Err(NotFound)
      ensures (Auth.Permits(caller, Managers) && amount >= 1 && id in old(invoices)
               && amount > old(invoices)[id].balance) ==> r == Err(BadRequest)
      ensures r.Ok? <==>
                && Auth.Permits(caller, Managers) && amount >= 1 && id in old(invoices)
                && amount <= old(invoices)[id].balance
      ensures r.Ok? ==>
                && payments == old(payments) + [InvoicePayment(id, amount, if paymentDate.Some? then paymentDate.value else now,
                                                               paymentMethod, TrimOption(referenceNumber), caller.id,
                                                               TrimOption(notes))]
                && r.value == Credit(old(invoices)[id], amount)
                && invoices == old(invoices)[id := r.value]
      ensures r.Err? ==> invoices == old(invoices) && payments == old(payments)
    {
      if !Auth.Permits(caller, Managers) {
        return Err(Forbidden);
      }
      if amount < 1 {
        return Err(BadRequest);
      }
      if id !in invoices {
        return Err(NotFound);
      }
      var inv := invoices[id];
      if amount > inv.balance {
        return Err(BadRequest);
      }
      var payment := InvoicePayment(id, amount, if paymentDate.Some? then paymentDate.value else now,
                                    paymentMethod, TrimOption(referenceNumber), caller.id, TrimOption(notes));
      PaymentKeepsValid(invoices, payments, payment);
      payments := payments + [payment];
      var credited := Credit(inv, amount);
      BeforeSaveFixesAgreeingRows(credited);
      Save(id, credited);
      r := Ok(credited);
    }

    /** PUT /invoices/:id/reconcile: only approved or cleared invoices can be
        reconciled; amounts and status are left as they are. */
    method Reconcile(caller: User, id: Uuid, notes: Option<string>, now: int) returns (r: Result<Invoice>)
      requires Valid()
      modifies this
      ensures Valid()
      ensures !Auth.Permits(caller, Managers) ==> r == Err(Forbidden)
      ensures (Auth.Permits(caller, Managers) && id !in old(invoices)) ==> r == Err(NotFound)
      ensures (Auth.Permits(caller, Managers) && id in old(invoices)
               && old(invoices)[id].status != Approved && old(invoices)[id].status != Cleared) ==> r == Err(BadRequest)
      ensures r.Ok? <==>
                && Auth.Permits(caller, Managers) && id in old(invoices)
                && (old(invoices)[id].status == Approved || old(invoices)[id].status == Cleared)
      ensures r.Ok? ==>
                && r.value == MarkReconciled(old(invoices)[id], caller.id, now, notes)
                && invoices == old(invoices)[id := r.value]
      ensures r.Err? ==> invoices == old(invoices)
      ensures payments == old(payments)
    {
      if !Auth.Permits(caller, Managers) {
        return Err(Forbidden);
      }
      if id !in invoices {
        return Err(NotFound);
      }
      var inv := invoices[id];
      if inv.status != Approved && inv.status != Cleared {
        return Err(BadRequest);
      }
      var marked := MarkReconciled(inv, caller.id, now, notes);
      RowUpdateKeepsValid(invoices, payments, id, marked);
      BeforeSaveFixesAgreeingRows(marked);
      Save(id, marked);
      r := Ok(marked);
    }

    /** DELETE /invoices/:id: the CEO deletes a pending invoice. */
    method Delete(caller: User, id: Uuid, debtBook: Debts.DebtBook) returns (r: Result<Invoice>)
      requires Valid() && debtBook.Valid()
      modifies this, debtBook
      ensures Valid() && debtBook.Valid()
      ensures !Auth.Permits(caller, [Ceo]) ==> r == Err(Forbidden)
      ensures (Auth.Permits(caller, [Ceo]) && id !in old(invoices)) ==> r == Err(NotFound)
      ensures (Auth.Permits(caller, [Ceo]) && id in old(invoices) && old(invoices)[id].status != Pending)
                ==> r == Err(BadRequest)
      ensures r.Ok? <==> Auth.Permits(caller, [Ceo]) && id in old(invoices) && old(invoices)[id].status == Pending
      ensures r.Ok? ==>
                && r.value == old(invoices)[id]
                && invoices == old(invoices) - {id}
                && payments == PaymentsWithout(old(payments), id)
                && debtBook.debts == Debts.Unlinked(old(debtBook.debts), id)
      ensures r.Err? ==> invoices == old(invoices) && payments == old(payments) && debtBook.debts == old(debtBook.debts)
      ensures debtBook.plans == old(debtBook.plans) && debtBook.installments == old(debtBook.installments)
    {
      if !Auth.Permits(caller, [Ceo]) {
        return Err(Forbidden);
      }
      if id !in invoices {
        return Err(NotFound);
      }
      var inv := invoices[id];
      if inv.status != Pending {
        return Err(BadRequest);
      }
      DeleteKeepsValid(invoices, payments, id);
      invoices := invoices - {id};
      payments := PaymentsWithout(payments, id);
      debtBook.UnlinkInvoice(id);
      r := Ok(inv);
    }

    /** What the tables promise at all times: no invoice is overpaid or has a
        negative balance, and a reconciled invoice is approved or cleared. */
    lemma NeverOverpaid(id: Uuid)
      requires Valid() && id in invoices
      ensures 0 <= invoices[id].totalPaid <= invoices[id].amount
      ensures invoices[id].balance >= 0
      ensures invoices[id].reconciled ==> invoices[id].status in {Approved, Cleared}
    {
      assert InvoiceConsistent(invoices[id]);
    }
  }
}
