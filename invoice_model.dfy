/** The Invoice row and the model hooks that run before every create and
    every update. */
module InvoiceModel {
  import opened Common

  /** The status column: 'pending', 'approved', 'cleared' or 'rejected'. */
  datatype InvoiceStatus = Pending | Approved | Cleared | Rejected

  /** An Invoice row: amounts in cents, dates as day numbers. */
  datatype Invoice = Invoice(
    number: string,
    amount: int,
    date: int,
    status: InvoiceStatus,
    salesPersonId: Uuid,
    qrCode: Option<string>,
    imageUrl: Option<string>,
    approvedBy: Option<Uuid>,
    approvedDate: Option<int>,
    rejectionReason: Option<string>,
    reconciled: bool,
    reconciledBy: Option<Uuid>,
    reconciledDate: Option<int>,
    reconciliationNotes: Option<string>,
    totalPaid: int,
    balance: int)

  /** A row built from the given fields, every other column taking its
      default: status pending, not reconciled, nothing paid, and no approval or
      reconciliation recorded. */
  function NewInvoice(number: string, amount: int, date: int, salesPersonId: Uuid,
                      qrCode: Option<string>, imageUrl: Option<string>, balance: int): (inv: Invoice)
    ensures inv.status == Pending && !inv.reconciled && inv.totalPaid == 0
    ensures inv.approvedBy.None? && inv.approvedDate.None? && inv.rejectionReason.None?
    ensures inv.reconciledBy.None? && inv.reconciledDate.None? && inv.reconciliationNotes.None?
    ensures inv.number == number && inv.amount == amount && inv.salesPersonId == salesPersonId
  {
    Invoice(number, amount, date, Pending, salesPersonId, qrCode, imageUrl, None, None, None,
            false, None, None, None, 0, balance)
  }

  /** Whether the balance column agrees with the amount and what was paid. */
  predicate BalanceAgrees(inv: Invoice) {
    inv.balance == inv.amount - inv.totalPaid
  }

  /** The `beforeCreate` and `beforeUpdate` hooks: whatever the handler wrote
      into the balance, the saved row's balance is amount minus total paid, and
      nothing else is touched. */
  function BeforeSave(inv: Invoice): (saved: Invoice)
    ensures BalanceAgrees(saved)
    ensures saved.(balance := inv.balance) == inv
  {
    inv.(balance := inv.amount - inv.totalPaid)
  }

  /** The hook leaves a row whose balance already agrees exactly as it is, so
      running it again changes nothing. */
  lemma BeforeSaveFixesAgreeingRows(inv: Invoice)
    ensures BalanceAgrees(inv) <==> BeforeSave(inv) == inv
    ensures BeforeSave(BeforeSave(inv)) == BeforeSave(inv)
  {
  }

  /** A freshly created invoice owes its whole amount, whatever balance the
      handler passed: nothing has been paid by default. */
  lemma FreshInvoiceOwesAmount(number: string, amount: int, date: int, salesPersonId: Uuid,
                               qrCode: Option<string>, imageUrl: Option<string>, balance: int)
    ensures var inv := BeforeSave(NewInvoice(number, amount, date, salesPersonId, qrCode, imageUrl, balance));
            inv.balance == amount && inv.totalPaid == 0 && inv.status == Pending && !inv.reconciled
  {
  }
}
