# A verified model of the veetoo back office

veetoo is a back-office system for a chain of stores. Salespeople raise
invoices and carry debts. Supervisors and the CEO approve invoices, record
payments, move stock between stores and keep the product and store
catalogues. A web client keeps the signed-in session and a light/dark theme.

This project models the business rules of that system in Dafny and proves
what the code promises about them:

- **Debt engine** (`backend/routes/debts.js`):
  - creating a debt;
  - the "one active plan per debt" guard;
  - the loop that generates a plan's installments;
  - the debt pay-down;
  - the oldest-first (waterfall) allocation of a payment over a plan's
    outstanding installments.
- **Invoices** (`backend/routes/invoices.js`, `backend/models/Invoice.js`):
  - invoice numbering;
  - creation;
  - approve/reject;
  - the payment ledger and its overpayment guard;
  - reconciliation and deletion;
  - salesperson visibility;
  - the save hooks that recompute the balance.
- **Transfers** (`backend/routes/transfers.js`):
  - transfer numbering;
  - the pending → in transit → completed / cancelled state machine;
  - the stock movement on completion.
- **Inventory** (`backend/routes/inventory.js`): stock adjustment with its
  audit log, and the low-stock filter.
- **Products and stores** (`backend/routes/products.js`,
  `backend/routes/stores.js`): validators, the partial-update merge and
  soft deletion.
- **Middleware** (`backend/middleware/auth.js`,
  `backend/middleware/errorHandler.js`): bearer authentication, the role
  gate, and the mapping of error kinds to HTTP statuses.
- **Web client**:
  - `truncateText` and `calculatePercentageChange` in
    `veetoo-platform/src/utils/formatters.ts`;
  - the session store and the theme store in `veetoo-platform/src/hooks/`.

Modelling conventions:

- **Tables.** Each table is a `class` whose fields are maps keyed by id,
  with the rows as datatypes. Each route is a method that returns
  `Ok(value)` or `Err(status)`. A route runs in one transaction, so on
  every error reply the tables are unchanged; the contracts state this. Each
  book keeps an invariant `Valid()` (for example "no invoice is overpaid",
  "no stock row is negative", "one plan per debt"), and every route
  preserves it.
- **Money, dates and clocks.** Money is integer cents and dates are
  integer day numbers. The current time, year and month are parameters.
- **Collisions.** Every create route may hit a primary key, an invoice or
  transfer number, or a SKU that is already in use. The database then
  raises a unique-constraint error, which the error handler answers with
  409. The model answers such a collision with `Err(409)` and changes
  nothing.
- **Deleting an invoice.** `InvoicePayment.invoice_id` is a non-null
  foreign key, so deleting an invoice removes its payments with it.
  `Debt.invoice_id` is a nullable foreign key, so the debts that named the
  invoice stay, with the link cleared (`ON DELETE SET NULL`). The model does
  both.

Files: `common.dfy` (shared types, `trim`, the UUID validator),
`text.dfy` (decimal rendering and zero padding), `auth.dfy`,
`error_handler.dfy`, `payment_schedule.dfy`, `payment_allocation.dfy`,
`debts.dfy`, `invoice_model.dfy`, `invoices.dfy`, `inventory.dfy`,
`transfers.dfy`, `products.dfy`, `stores.dfy`, `formatters.dfy`,
`auth_store.dfy` and `theme_store.dfy`.

## Model

| member | source | states |
|---|---|---|
| `Common.Trim` | backend/routes/products.js:76-78 | The `trim()` sanitiser: when the text is not all white space, the result is exactly the slice between its leading and its trailing white space, so both ends are non-space. Text that is all white space becomes empty, and only such text does. |
| `PaymentSchedule.GenerateInstallments` | backend/routes/debts.js:231-258 | The generation loop builds exactly `PlanSchedule` of its inputs: the specification the lemmas below describe. |
| `PaymentSchedule.ScheduleShape` | backend/routes/debts.js:234-257 | Installments are numbered consecutively from the first number. Each is due exactly one period after its predecessor, and all are due no later than the end date. A non-empty schedule starts on the start date. |
| `PaymentSchedule.SpacedDatesIncrease` | backend/routes/debts.js:250-257 | If the month step moves dates forward, due dates spaced by the period strictly increase. |
| `PaymentSchedule.ScheduleAmounts` | backend/routes/debts.js:238-248 | Every installment is pending with nothing paid. It owes at least one cent and at most the installment amount, and every installment but the last owes exactly the installment amount. |
| `PaymentSchedule.TotalAmountPrepend` | backend/routes/debts.js:240-248 | The total of a schedule is its first amount plus the total of the rest. |
| `PaymentSchedule.ScheduleCoverage` | backend/routes/debts.js:237-248 | The amounts never sum to more than the remaining principal. Generation stops only when the principal is covered or the next due date passes the end date. |
| `PaymentSchedule.ScheduleEmpty` | backend/routes/debts.js:219-237 | No installment is generated exactly when the start date is after the end date or nothing remains. |
| `PaymentAllocation.AllocateStep` | backend/routes/debts.js:367-380 | One turn of the allocation loop keeps the loop invariant: the rows before the cursor are final and the rest are untouched. |
| `PaymentAllocation.AllocateDone` | backend/routes/debts.js:367-368 | When the rows or the payment run out, the rows are exactly the waterfall allocation. |
| `PaymentAllocation.Allocate` | backend/routes/debts.js:356-381 | The loop over the installment rows computes exactly `Waterfall(rows, payment, today)`. |
| `PaymentAllocation.WaterfallKeepsRows` | backend/routes/debts.js:370-378 | Allocation keeps every row's number, due date and amount. No row is ever paid more than it owes, and no paid amount decreases. |
| `PaymentAllocation.WaterfallStatus` | backend/routes/debts.js:358-378 | Rows that are not pending or overdue are untouched. An outstanding row becomes paid, with today's paid date, exactly when its paid amount reaches its amount; otherwise it keeps its status (an overdue row stays overdue) and its paid date. |
| `PaymentAllocation.WaterfallOldestFirst` | backend/routes/debts.js:363-368 | A row receives money only if every earlier row was left fully paid. While a row stays unpaid, every later row is untouched. |
| `PaymentAllocation.WaterfallConsistent` | backend/routes/debts.js:370-378 | Allocation keeps rows in range and paid exactly when covered. |
| `PaymentAllocation.OutstandingBounds` | backend/routes/debts.js:370-371 | What rows in range still owe is never negative. |
| `PaymentAllocation.WaterfallTotal` | backend/routes/debts.js:356-381 | The total applied is min(payment, sum still owed), and the outstanding sum drops by the same amount. Any excess is dropped. |
| `PaymentAllocation.OutstandingOfUnpaid` | backend/routes/debts.js:240-246 | Fresh installments owe exactly their amounts. |
| `PaymentAllocation.NothingOutstandingAllPaid` | backend/routes/debts.js:376-377 | When consistent rows owe nothing, every row is paid. |
| `Debts.PayDown` | backend/routes/debts.js:342-347 | The new amount is the old amount less the payment. The debt is paid exactly when the new amount is 0. No other field changes. |
| `Debts.PlanScheduleWellFormed` | backend/routes/debts.js:219-258 | A generated schedule is numbered from 1, has strictly increasing due dates no later than the end date, and is consistent. It owes no more than the debt's amount. |
| `Debts.AllocationKeepsRows` | backend/routes/debts.js:337-381 | Allocating a payment no larger than the debt keeps the plan's rows well formed. What they owe stays within what is left of the debt. |
| `Debts.NewDebtKeepsValid` | backend/routes/debts.js:159-166 | A consistent new debt under a fresh id keeps the debt tables valid. |
| `Debts.NewPlanKeepsValid` | backend/routes/debts.js:205-260 | A new active plan for a debt without one, with a well-formed schedule, keeps the tables valid. In particular there is still one plan per debt. |
| `Debts.SpreadPayment` | backend/routes/debts.js:349-382 | The rows of the debt's plan, if it has one, get the waterfall allocation. Every other plan's rows are unchanged. |
| `Debts.PaymentKeepsValid` | backend/routes/debts.js:337-382 | Paying down a debt and spreading the payment over its plan keeps the tables valid. |
| `Debts.Unlinked` | backend/models/Debt.js:31-37 | After an invoice is deleted no debt names it. A debt that named it keeps every other field and now has no invoice. Every other debt is unchanged, and no debt is removed. |
| `Debts.UnlinkKeepsValid` | backend/models/index.js:60 | Clearing the deleted invoice's link keeps the debt tables valid. |
| `Debts.DebtBook.UnlinkInvoice` | backend/models/index.js:60 | The debts become `Unlinked` of the old debts. Plans and installments are unchanged, and the invariant is kept. |
| `Debts.DebtBook.CreateDebt` | backend/routes/debts.js:146-179 | 403 for other roles. 400 for a bad salesperson id, an amount under one cent or a bad invoice id. 409 on a taken id. Succeeds exactly when none of these applies, and then a pending debt with the given fields is stored. On error nothing changes. |
| `Debts.DebtBook.CreatePaymentPlan` | backend/routes/debts.js:184-273 | Errors come in this order: 403, 400 for the installment amount, 404 for an unknown debt, 400 when an active plan exists, 409 on a taken plan id. Succeeds exactly when none of these applies. On success an active plan for the debt's whole amount is stored with exactly the generated schedule, which is empty when the start date is after the end date. On error nothing changes. |
| `Debts.DebtBook.RecordPayment` | backend/routes/debts.js:317-394 | Errors: 403, 400 for under one cent, 404, 400 when the payment exceeds the debt. On success the debt is paid down and the payment is spread over its plan. On error nothing changes. The invariant is kept. |
| `Debts.DebtBook.SettledDebtSettlesPlan` | backend/routes/debts.js:343-378 | Once a debt is paid off, every installment of its plan is paid. |
| `InvoiceModel.NewInvoice` | backend/models/Invoice.js:24-89 | A new row is pending, not reconciled and has nothing paid: the column defaults. |
| `InvoiceModel.BeforeSave` | backend/models/Invoice.js:99-106 | After a save the balance is amount − total paid, and nothing else changes. |
| `InvoiceModel.BeforeSaveFixesAgreeingRows` | backend/models/Invoice.js:99-106 | The hook changes a row exactly when its balance disagrees, so it is idempotent. |
| `InvoiceModel.FreshInvoiceOwesAmount` | backend/models/Invoice.js:82-89 | A freshly created invoice owes its whole amount, whatever balance was written. |
| `Text.NatToString` | backend/routes/invoices.js:25 | `String(n)` is a non-empty string of decimal digits that starts with 0 only for 0. |
| `Text.NatToStringRoundTrip` | backend/routes/invoices.js:25 | Reading the rendered digits back gives the number. |
| `Text.NatToStringInjective` | backend/routes/invoices.js:25 | Different numbers render differently. |
| `Text.FourDigitYear` | backend/routes/invoices.js:17 | A four-digit year renders as four characters. |
| `Text.PadStart` | backend/routes/invoices.js:17-25 | `padStart` reaches at least the width, keeps the text as a suffix, and fills only the front. |
| `Text.ZeroPadRoundTrip` | backend/routes/invoices.js:25 | Zero padding keeps the value and gives at least the width. |
| `Text.SerialNumberShape` | backend/routes/invoices.js:17-25 | A serial number is the prefix, a hyphen, then a suffix of at least `width` digits whose value is count + 1. |
| `Text.SerialNumberInjective` | backend/routes/invoices.js:25 | Within one prefix, different counts give different numbers. |
| `Text.ShortNumberPadsToWidth` | backend/routes/invoices.js:25 | A number below 10^width pads to exactly `width` characters. |
| `Text.SerialPrefixLength` | backend/routes/invoices.js:17 | With a four-digit year and a month from 1 to 12, the prefix is the tag plus 7 characters. |
| `Invoices.GenerateInvoiceNumber` | backend/routes/invoices.js:15-26 | "INV-YYYYMM-" followed by at least five digits whose value is one more than the count of numbers with the month's prefix. |
| `Invoices.InvoiceNumberLayout` | backend/routes/invoices.js:15-26 | For a four-digit year and a valid month the prefix is 10 characters long, and the number is 16 while fewer than 99999 invoices share the prefix. |
| `Invoices.PaymentsWithout` | backend/models/InvoicePayment.js:10-16 | The ledger without one invoice's payments keeps only payments of other invoices. |
| `Invoices.PaidToAppend` | backend/routes/invoices.js:301-310 | Recording a payment adds its amount to what its invoice was paid and to nothing else. |
| `Invoices.PaidToUnreferenced` | backend/routes/invoices.js:205-214 | An invoice no payment refers to has been paid nothing. |
| `Invoices.PaidToWithout` | backend/routes/invoices.js:392 | Removing one invoice's payments leaves what every other invoice was paid. |
| `Invoices.Credit` | backend/routes/invoices.js:311-320 | The payment is added to total paid, the balance is what remains, and the status is cleared exactly when nothing remains; otherwise it is kept. |
| `Invoices.Decide` | backend/routes/invoices.js:250-256 | Sets the new status, the approver and the date. The rejection reason is written only for a rejection. Nothing else changes. |
| `Invoices.MarkReconciled` | backend/routes/invoices.js:360-365 | Sets the reconciled flag, who and when. Notes that are sent replace the stored notes, trimmed. A request without notes keeps the stored notes, because the update skips undefined values. Amount, total paid, balance and status are untouched. |
| `Invoices.NewInvoiceKeepsValid` | backend/routes/invoices.js:203-214 | A consistent new invoice with nothing paid and a fresh id and number keeps the tables valid. |
| `Invoices.RowUpdateKeepsValid` | backend/routes/invoices.js:250-256 | A consistent rewrite that keeps the number and total paid keeps the tables valid. |
| `Invoices.CreditKeepsConsistent` | backend/routes/invoices.js:296-320 | A payment of at most the balance keeps the invoice consistent: total paid stays within the amount and the balance stays non-negative and decreases. |
| `Invoices.PaymentKeepsValid` | backend/routes/invoices.js:301-320 | An accepted payment, appended to the ledger and credited to its invoice, keeps the tables valid. |
| `Invoices.DeleteKeepsValid` | backend/routes/invoices.js:392 | Deleting an invoice with its payments keeps the tables valid. |
| `Invoices.InvoiceBook.Save` | backend/models/Invoice.js:99-106 | Every write goes through the hook: the row stored is `BeforeSave` of what the handler wrote. |
| `Invoices.InvoiceBook.List` | backend/routes/invoices.js:33-56 | 400 for a malformed salesperson id or reconciled flag. Otherwise exactly the visible invoices that pass the filters. A salesperson sees only their own invoices, and only "true" selects reconciled ones. |
| `Invoices.InvoiceBook.Get` | backend/routes/invoices.js:160-169 | 404 for an unknown id. 403 exactly when a salesperson asks for another salesperson's invoice. Otherwise the stored row. |
| `Invoices.InvoiceBook.ListAgreesWithGet` | backend/routes/invoices.js:52-54 | The unfiltered list holds exactly the invoices the caller may fetch one by one. |
| `Invoices.InvoiceBook.Create` | backend/routes/invoices.js:180-214 | 400 for a bad amount or salesperson id, or for a non-salesperson who names no salesperson. When the fields pass, 409 on a taken id or number (numbering by count + 1 can reuse a number after a delete). Succeeds exactly when none of these applies. A salesperson always owns what they create. The stored row is a pending invoice with balance = amount and the next number. |
| `Invoices.InvoiceBook.UpdateStatus` | backend/routes/invoices.js:230-256 | 403 for other roles. 400 for a decision other than approved or rejected. 404 for an unknown invoice. 400 for an invoice that is not pending. Succeeds exactly when none of these applies, and the row becomes `Decide` of it. On error nothing changes. |
| `Invoices.InvoiceBook.RecordPayment` | backend/routes/invoices.js:272-320 | Succeeds exactly when the amount is between one cent and the balance, whatever the invoice's status. It then appends exactly one payment row and credits the invoice. On error nothing changes. |
| `Invoices.InvoiceBook.Reconcile` | backend/routes/invoices.js:345-365 | 403 for other roles. 404 for an unknown invoice. 400 for an invoice that is neither approved nor cleared. Succeeds exactly when none of these applies. The row becomes `MarkReconciled` of it, so stored notes survive a request without notes. On error nothing changes. |
| `Invoices.InvoiceBook.Delete` | backend/routes/invoices.js:381-392 | 403 for anyone but the CEO. 404 for an unknown id. 400 for an invoice that is not pending. Succeeds exactly when none of these applies. It then removes the invoice and its payments, and every debt that named the invoice loses the link (`Debts.Unlinked`). Plans and installments are untouched. On error nothing changes in either book. |
| `Invoices.InvoiceBook.NeverOverpaid` | backend/routes/invoices.js:296-320 | In every reachable state, total paid is between 0 and the amount, the balance is non-negative, and a reconciled invoice is approved or cleared. |
| `Inventory.RowOrDefault` | backend/routes/inventory.js:133-140 | A missing row reads as stock 0 with reorder level 10. |
| `Inventory.Adjusted` | backend/routes/inventory.js:143-144 | `in` adds the quantity, `out` subtracts it. |
| `Inventory.LowStock` | backend/routes/inventory.js:49-52 | Keeps exactly the items at or below their reorder level. |
| `Inventory.LowStockConcat` | backend/routes/inventory.js:51 | The filter preserves order: filtering a concatenation concatenates the filtered parts. |
| `Inventory.LowStockIdempotent` | backend/routes/inventory.js:187-194 | Filtering twice is filtering once. |
| `Inventory.ListInventory` | backend/routes/inventory.js:17-54 | 400 exactly for a malformed store id, product id or low_stock flag. The filter applies only when low_stock reads "true". |
| `Inventory.StockBook.Adjust` | backend/routes/inventory.js:113-175 | 403, then 400 for bad fields (quantity at least 1), then 400 when the new stock would be below zero. Succeeds exactly when none of these applies. It then writes the new stock, logs exactly one matching transaction, and reports the previous and new stock. On error nothing changes. Stock never goes negative. |
| `Transfers.GenerateTransferNumber` | backend/routes/transfers.js:15-26 | "TRF-YYYYMM-" followed by at least four digits whose value is one more than the count with the prefix. |
| `Transfers.TransferNumberLayout` | backend/routes/transfers.js:15-26 | For a four-digit year and valid month the number is 15 characters while fewer than 9999 share the prefix. |
| `Transfers.Transition` | backend/routes/transfers.js:224-329 | approve goes to in transit, complete to completed, cancel to cancelled, and no action leads back to pending. |
| `Transfers.CompletedIsTerminal` | backend/routes/transfers.js:325-329 | Every action on a completed transfer is refused. |
| `Transfers.TransitionGuards` | backend/routes/transfers.js:224-326 | approve only from pending, complete only from in transit, cancel from everything but completed. |
| `Transfers.StockMovesAtMostOnce` | backend/routes/transfers.js:259-298 | Whatever actions are attempted, a transfer moves stock at most once, and never once it is completed or cancelled. |
| `Transfers.CompletionNeedsApproval` | backend/routes/transfers.js:224-261 | A pending transfer ends completed only after both an approve and a complete. |
| `Transfers.CancelledStays` | backend/routes/transfers.js:224-329 | A cancelled transfer stays cancelled. |
| `Transfers.InTransitCompletesOnlyByComplete` | backend/routes/transfers.js:259-261 | An in-transit transfer reaches completed only through a complete action. |
| `Transfers.MoveStock` | backend/routes/transfers.js:275-298 | The source loses the quantity and the destination gains it. The destination is created at stock 0 and reorder level 10 when missing. Every other row is unchanged. |
| `Transfers.MoveConserves` | backend/routes/transfers.js:275-298 | The source and destination together hold as much after the move as before. |
| `Transfers.MoveKeepsStockNonNegative` | backend/routes/transfers.js:266-298 | Moving no more than the source holds keeps every row non-negative. |
| `Transfers.NewTransferKeepsValid` | backend/routes/transfers.js:190-200 | A well-formed transfer with a fresh id and number keeps the table valid. |
| `Transfers.RowUpdateKeepsValid` | backend/routes/transfers.js:234-298 | A well-formed rewrite keeping the number keeps the table valid. |
| `Transfers.TransferBook.CheckRequest` | backend/routes/transfers.js:151-185 | The request checks in the route's order: 403 for other roles, 400 for bad fields, 404 when either store is missing from the store table, 400 for the same store, and 400 when the stock table's source row is missing or short. It refuses nothing exactly when all of them pass. |
| `Transfers.TransferBook.Request` | backend/routes/transfers.js:151-209 | 403, then 400 for bad fields, 404 for a store missing from the store table, 400 for the same store, 400 when the stock table's source row is missing or short, and 409 on a taken id or number. Succeeds exactly when none of these applies. On success the transfer is stored pending, with the next number. Stock is not touched. |
| `Transfers.TransferBook.ApproveTransfer` | backend/routes/transfers.js:216-241 | 403 for other roles. 404 for an unknown transfer. 400 for a transfer that is not pending. Succeeds exactly when none of these applies: the transfer goes in transit with the approver and date. On error nothing changes. |
| `Transfers.TransferBook.CompleteTransfer` | backend/routes/transfers.js:248-310 | 403 for other roles. 404 for an unknown transfer. 400 for a transfer that is not in transit. 400 when the source no longer holds the quantity. Succeeds exactly when none of these applies. It then moves the stock (`MoveStock`) and completes the transfer. On error neither table changes, and the stock log is never touched. |
| `Transfers.TransferBook.CancelTransfer` | backend/routes/transfers.js:317-338 | 403 for other roles. 404 for an unknown transfer. 400 for a completed transfer. Succeeds exactly when none of these applies: the transfer becomes cancelled and stock is not touched. On error nothing changes. |
| `Products.Truthy` | backend/routes/products.js:136-138 | A supplied non-empty text replaces the stored one. An absent or empty one keeps it. |
| `Products.Merge` | backend/routes/products.js:134-144 | Name, SKU and category are replaced only when truthy. Price, description, image and active flag are replaced whenever supplied. |
| `Products.Sanitised` | backend/routes/products.js:114-123 | The text fields of the body are trimmed and the rest is kept as sent. |
| `Products.MergeNothing` | backend/routes/products.js:134-144 | An empty body changes nothing. |
| `Products.MergeIdempotent` | backend/routes/products.js:134-144 | Sending the same body twice is sending it once. |
| `Products.ValidatedMergeTakesEverySuppliedField` | backend/routes/products.js:114-144 | After validation, every supplied field (name, SKU, category, price, description, image, active flag) is taken over as sanitised, and every field the body leaves out keeps its stored value. |
| `Products.WriteKeepsValid` | backend/models/Product.js:14-18 | Writing a well-formed row whose SKU no other product holds keeps SKUs unique. |
| `Products.MergeKeepsWellFormed` | backend/routes/products.js:134-144 | The merge keeps a row well formed given a non-negative price. |
| `Products.ProductBook.Get` | backend/routes/products.js:44-66 | The product, or 404 exactly when it is unknown. |
| `Products.ProductBook.Create` | backend/routes/products.js:75-107 | 403, 400 for blank name/SKU/category or a negative price, 409 on a taken id or SKU. Otherwise an active product with the trimmed fields is stored. |
| `Products.ProductBook.Update` | backend/routes/products.js:114-153 | 403, 400 for invalid supplied fields, 404 for an unknown product, 409 when the merged SKU is held by another product. Succeeds exactly when none of these applies, and the row becomes the merge of the sanitised body. On error nothing changes. |
| `Products.ProductBook.Deactivate` | backend/routes/products.js:160-169 | 403 for anyone but the CEO. 404 for an unknown product. Otherwise only the active flag is cleared and the row stays. |
| `Stores.Sanitised` | backend/routes/stores.js:110-117 | Name, location and phone number are trimmed, and the rest is kept as sent. |
| `Stores.Merge` | backend/routes/stores.js:138-144 | Name and location are replaced only when truthy. Manager, phone and active flag are replaced whenever defined. |
| `Stores.MergeNothing` | backend/routes/stores.js:138-144 | An empty body changes nothing. |
| `Stores.MergeIdempotent` | backend/routes/stores.js:138-144 | Sending the same body twice is sending it once. |
| `Stores.ValidatedMergeTakesEverySuppliedField` | backend/routes/stores.js:110-144 | After validation, every supplied field (name, location, manager, phone number, active flag) is taken over as sanitised, and every field the body leaves out keeps its stored value. |
| `Stores.MergeKeepsWellFormed` | backend/routes/stores.js:138-144 | The merge keeps a row well formed given a valid manager id. |
| `Stores.WriteKeepsValid` | backend/routes/stores.js:88-144 | Writing a well-formed row keeps the table valid. |
| `Stores.StoreBook.Get` | backend/routes/stores.js:40-58 | The store, or 404 exactly when it is unknown. |
| `Stores.StoreBook.Create` | backend/routes/stores.js:67-103 | 403, then 400 for a blank name or location or a bad manager id, 404 for an unknown manager, 409 on a taken id. Otherwise an active store with the trimmed fields is stored. |
| `Stores.StoreBook.Update` | backend/routes/stores.js:110-153 | 403, then 400 for invalid supplied fields, 404 for an unknown store, 404 for an unknown manager. Succeeds exactly when none of these applies, and the row becomes the merge of the sanitised body. On error nothing changes. |
| `Stores.StoreBook.Deactivate` | backend/routes/stores.js:160-169 | 403 for anyone but the CEO. 404 for an unknown store. Otherwise only the active flag is cleared and the row stays. |
| `Auth.BearerToken` | backend/middleware/auth.js:11-15 | A token exists exactly for a header starting "Bearer ", and it is the rest of the header. |
| `Auth.CheckCredentials` | backend/middleware/auth.js:9-33 | 401 for a missing or non-bearer header, a token that does not verify, or an unknown or inactive user. Otherwise the active user the token names. |
| `Auth.Authorize` | backend/middleware/auth.js:43-55 | 401 without a user, 403 when the role is not listed, and proceed when it is. |
| `Auth.Request.Authenticate` | backend/middleware/auth.js:7-38 | Returns the decision of `CheckCredentials` and attaches the user only on success. |
| `Auth.NoBearerNoEntry` | backend/middleware/auth.js:11-13 | A missing header, or one with another scheme, is answered 401 whatever the token check and user table say. |
| `Auth.GateOfAuthenticatedRequest` | backend/middleware/auth.js:23-53 | Authentication followed by authorisation lets a request through exactly when an active user with a listed role is named. |
| `ErrorHandler.Details` | backend/middleware/errorHandler.js:11-14 | One detail per underlying error, in order, carrying its path and message. |
| `ErrorHandler.DetailsConcat` | backend/middleware/errorHandler.js:11-14 | The details of a concatenation are the concatenated details. |
| `ErrorHandler.HandleError` | backend/middleware/errorHandler.js:4-41 | Validation errors give 400 with details, unique-constraint errors 409 "Duplicate entry", and foreign-key errors 400 "Invalid reference". Anything else gives its own status if truthy, else 500, with its own message if non-empty, else "Internal server error". |
| `ErrorHandler.SequelizeErrorsIgnoreStatus` | backend/middleware/errorHandler.js:8-35 | The three database errors are answered by name alone, whatever status or message they carry. |
| `ErrorHandler.RouteNotFound` | backend/middleware/errorHandler.js:46-48 | An unknown route is always answered 404. |
| `Formatters.SliceTo` | veetoo-platform/src/utils/formatters.ts:50 | `slice(0, end)`: a prefix, clamped to the text, counting back from the end for a negative end. |
| `Formatters.TruncateText` | veetoo-platform/src/utils/formatters.ts:48-51 | A text that fits is returned unchanged. Otherwise the result has length maxLength + 3: the first maxLength characters, then "...". |
| `Formatters.TruncateIdempotent` | veetoo-platform/src/utils/formatters.ts:48-51 | Truncating twice with the same non-negative limit is truncating once. |
| `Formatters.TruncateKeepsPrefix` | veetoo-platform/src/utils/formatters.ts:48-51 | The result is the text or a prefix of it followed by "...". |
| `Formatters.FixedOne` | veetoo-platform/src/utils/formatters.ts:44 | `toFixed(1)` of a non-negative value: digits, a point, one digit, with no leading zero in a whole part of more than one digit. Read back, the digits denote a number of tenths within half a tenth of the value, with an exact half rounding up. |
| `Formatters.PercentageChange` | veetoo-platform/src/utils/formatters.ts:39-45 | "0%" when previous is 0. Otherwise the change to one decimal, prefixed "+" when it is at least 0 and "-" otherwise, followed by "%". |
| `Formatters.PercentageSign` | veetoo-platform/src/utils/formatters.ts:42-44 | The answer starts with "+" exactly when the change is at least 0, and with "-" exactly when it is negative. It always ends with "%". |
| `Formatters.SignFollowsGrowth` | veetoo-platform/src/utils/formatters.ts:42-43 | Against a positive previous value, "+" exactly when current is at least previous. Against a negative previous value the sign is reversed. |
| `AuthStore.SignedIn` | veetoo-platform/src/hooks/useAuthStore.ts:31-37 | Login holds the user and token, is authenticated, and takes the role from the user. |
| `AuthStore.StatesAreCoherent` | veetoo-platform/src/hooks/useAuthStore.ts:26-45 | Both states the store can be put in are coherent: authenticated exactly when a user and a token are held, and the role is the user's role. |
| `AuthStore.LoginOverwrites` | veetoo-platform/src/hooks/useAuthStore.ts:31-37 | A second login leaves nothing of the first session. |
| `AuthStore.SessionStore.constructor` | veetoo-platform/src/hooks/useAuthStore.ts:26-29 | The store starts signed out: no user, no token, not authenticated, no role. |
| `AuthStore.SessionStore.Login` | veetoo-platform/src/hooks/useAuthStore.ts:31-37 | The state becomes `SignedIn(user, token)`, whatever it was before. |
| `AuthStore.SessionStore.Logout` | veetoo-platform/src/hooks/useAuthStore.ts:39-45 | From any state, the state becomes the initial one, so logging out is idempotent and login followed by logout returns to the start. |
| `ThemeStore.Toggled` | veetoo-platform/src/hooks/useThemeStore.ts:18-21 | Light becomes dark, and anything else becomes light. |
| `ThemeStore.Initialised` | veetoo-platform/src/hooks/useThemeStore.ts:26-35 | A held theme is kept. Only when none is held does the system preference decide. |
| `ThemeStore.ToggleTwice` | veetoo-platform/src/hooks/useThemeStore.ts:18-21 | Toggling twice restores the held theme. |
| `ThemeStore.ToggleChanges` | veetoo-platform/src/hooks/useThemeStore.ts:18-21 | Toggling always changes a held theme. |
| `ThemeStore.InitialiseIdempotent` | veetoo-platform/src/hooks/useThemeStore.ts:26-35 | After initialising, a theme is held, and initialising again changes nothing. |
| `ThemeStore.ThemeState.constructor` | veetoo-platform/src/hooks/useThemeStore.ts:16 | The theme starts light. |
| `ThemeStore.ThemeState.ToggleTheme` | veetoo-platform/src/hooks/useThemeStore.ts:18-21 | The theme becomes `Toggled` of the old one. |
| `ThemeStore.ThemeState.SetTheme` | veetoo-platform/src/hooks/useThemeStore.ts:23-24 | The theme becomes exactly the given one. |
| `ThemeStore.ThemeState.InitTheme` | veetoo-platform/src/hooks/useThemeStore.ts:26-35 | The theme becomes `Initialised` of the old one with the system preference. |

## Left out

- **Storage.** The database, the ORM and transactions are not modelled.
  Tables are in-memory maps and each route is one atomic step. `ORDER BY`
  clauses on listings are not modelled either; plan installments are kept
  in due-date order as an invariant.
- **Concurrency.** Two requests racing on the same invoice, debt or stock
  row are out of scope.
- **Decimals and floats.** Amounts are integer cents, so parsing strings
  such as "12.50" into numbers is left out. A value a validator would
  accept as a numeric or boolean string is modelled as the number or
  boolean itself.
- **Enum fields.** Status, frequency, movement type and payment method are
  datatypes. A value outside the enum cannot be represented, so the 400
  the validators give for one is not modelled.
- **Column limits.** Length limits of string columns are not modelled.
- **Dates and the clock.** JavaScript `Date` arithmetic is not modelled. The
  monthly step is a parameter `addMonth` that is only known to move dates
  forward, so month-end rollover and time zones are outside the model. The
  current date, year and month are parameters.
- **JWT.** `verifyToken` is a parameter, and JWT and password hashing are
  not part of this model. The 401 that `authenticate` gives when
  verification or the user lookup throws is not modelled.
- **Foreign keys.** Only the manager check of the store routes and the
  store check of a transfer request are modelled, and the invoice payments
  go with their invoice while its debts lose the link. Other foreign-key failures (a debt naming an
  unknown salesperson, say) would surface as the error handler's 400
  "Invalid reference"; they are not modelled at the route.
- **Untouched routes.** The read-only routes that only fetch and order rows
  are not modelled: the debt, transfer, product and store listings, the
  reconciliation listing, and the per-store and per-product inventory
  views. `backend/routes/reports.js` is not part of this model.
- **Overdue status.** No route of the core marks an installment overdue.
  The status exists in the model, and allocation treats it like pending.
- **Client persistence.** The persistence of the two client stores in
  local storage and their rehydration are not modelled. The system colour
  preference is a parameter of `InitTheme`. A falsy saved theme is `None`.
- `Common.Trim`: strips ASCII white space only. The Unicode white-space
  characters that `trim()` also strips are not modelled.
- `Formatters.TruncateText`: the length test and the cut count Unicode
  characters, where `text.length` counts UTF-16 code units. Text with
  characters outside the Basic Multilingual Plane (emoji, for example) is
  judged shorter than the source judges it and is cut at a different place;
  the source can split such a character into a lone surrogate.
- `Formatters.SliceTo`: cut points count Unicode characters, where `slice`
  counts UTF-16 code units, so for text with characters outside the Basic
  Multilingual Plane the cut falls at a different place.
- `Formatters.PercentageChange`: computes the change on exact reals rather
  than on binary doubles. A value whose double rounds differently at the
  first decimal is not modelled.
- `Formatters.FixedOne`: rounds half up on the exact value. The
  exponent form `toFixed` uses for values of 10^21 and above is not
  modelled.
- `Debts.DebtBook.RecordPayment`: the source looks up the debt's plan
  without a status filter. The model relies on its invariant that a debt
  has at most one plan, so the choice is the same plan.
