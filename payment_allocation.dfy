/** Waterfall allocation of a debt payment over a plan's installments (the
    loop in POST /debts/:id/payment). Installments are visited in due-date
    order; paid ones are skipped; each outstanding one receives as much of the
    remaining payment as it still owes; the loop stops once the payment is used
    up, and any payment left after the last installment is dropped. */
module PaymentAllocation {
  import opened Common
  import opened PaymentSchedule

  /** What an installment still owes. */
  function Owed(row: Installment): int {
    row.amount - row.paidAmount
  }

  /** The installments the route fetches: those still pending or overdue. */
  predicate IsOutstanding(row: Installment) {
    row.status != Paid
  }

  /** A row the database can hold: something owed, never overpaid. */
  predicate RowInRange(row: Installment) {
    0 < row.amount && 0 <= row.paidAmount <= row.amount
  }

  predicate RowsInRange(rows: seq<Installment>) {
    forall i :: 0 <= i < |rows| ==> RowInRange(rows[i])
  }

  /** The status agrees with the money: a row is paid exactly when what it has
      received covers its amount. */
  predicate StatusAgrees(row: Installment) {
    row.status == Paid <==> row.paidAmount >= row.amount
  }

  predicate RowsConsistent(rows: seq<Installment>) {
    forall i :: 0 <= i < |rows| ==> RowInRange(rows[i]) && StatusAgrees(rows[i])
  }

  /** One installment receiving `payment` (the body of the loop): the amount
      applied is capped by what it owes; it becomes paid, stamped `today`, when
      fully covered, and keeps its prior status otherwise. */
  function Credit(row: Installment, payment: int, today: int): Installment {
    var applied := Min(payment, Owed(row));
    var newPaid := row.paidAmount + applied;
    row.(paidAmount := newPaid,
         status := if newPaid >= row.amount then Paid else row.status,
         paidDate := if newPaid >= row.amount then Some(today) else row.paidDate)
  }

  /** The allocation over a list of installments in due-date order. */
  function Waterfall(rows: seq<Installment>, payment: int, today: int): seq<Installment> {
    if rows == [] || payment <= 0 then rows
    else if !IsOutstanding(rows[0]) then [rows[0]] + Waterfall(rows[1..], payment, today)
    else
      var applied := Min(payment, Owed(rows[0]));
      [Credit(rows[0], payment, today)] + Waterfall(rows[1..], payment - applied, today)
  }

  /** The loop's invariant: the first `i` rows are final, the rest are
      untouched, and allocating what is left over the rest completes the
      allocation of the whole payment. */
  predicate AllocatedUpTo(rows: seq<Installment>, payment: int, today: int,
                          updated: seq<Installment>, i: int, remaining: int)
  {
    && 0 <= i <= |rows| && |updated| == |rows|
    && updated[i..] == rows[i..]
    && updated[..i] + Waterfall(rows[i..], remaining, today) == Waterfall(rows, payment, today)
  }

  /** One turn of the loop keeps its invariant: the installment at `i`
      receives what it can of what is left (nothing if it is paid). */
  lemma AllocateStep(rows: seq<Installment>, payment: int, today: int,
                     updated: seq<Installment>, i: int, remaining: int)
    requires AllocatedUpTo(rows, payment, today, updated, i, remaining)
    requires i < |rows| && remaining > 0
    ensures IsOutstanding(rows[i]) ==>
              AllocatedUpTo(rows, payment, today, updated[i := Credit(rows[i], remaining, today)], i + 1,
                            remaining - Min(remaining, Owed(rows[i])))
    ensures !IsOutstanding(rows[i]) ==> AllocatedUpTo(rows, payment, today, updated, i + 1, remaining)
  {
    assert rows[i..][0] == rows[i];
    assert rows[i..][1..] == rows[i + 1..];
    var next := if IsOutstanding(rows[i]) then updated[i := Credit(rows[i], remaining, today)] else updated;
    assert next[..i + 1] == updated[..i] + [next[i]];
    assert next[i + 1..] == updated[i + 1..];
  }

  /** When the loop ends, by running out of rows or of payment, the rows
      are the allocation. */
  lemma AllocateDone(rows: seq<Installment>, payment: int, today: int,
                     updated: seq<Installment>, i: int, remaining: int)
    requires AllocatedUpTo(rows, payment, today, updated, i, remaining)
    requires i == |rows| || remaining <= 0
    ensures updated == Waterfall(rows, payment, today)
  {
    assert updated == updated[..i] + updated[i..];
  }

  /** The allocation loop, updating the installment rows in place; the row
      update in its body is `Credit`. */
  method Allocate(rows: seq<Installment>, payment: int, today: int) returns (updated: seq<Installment>)
    ensures updated == Waterfall(rows, payment, today)
  {
    updated := rows;
    var remainingPayment := payment;
    var i := 0;
    while i < |rows|
      invariant AllocatedUpTo(rows, payment, today, updated, i, remainingPayment)
    {
      if remainingPayment <= 0 {
        break;
      }
      var installment := rows[i];
      AllocateStep(rows, payment, today, updated, i, remainingPayment);
      if IsOutstanding(installment) {
        var paymentToApply := Min(remainingPayment, installment.amount - installment.paidAmount);
        updated := updated[i := Credit(installment, remainingPayment, today)];
        remainingPayment := remainingPayment - paymentToApply;
      }
      i := i + 1;
    }
    AllocateDone(rows, payment, today, updated, i, remainingPayment);
  }

  // ---------------------------------------------------------------------------
  // Sums

  function TotalPaid(rows: seq<Installment>): int {
    if rows == [] then 0 else rows[0].paidAmount + TotalPaid(rows[1..])
  }

  /** The sum of what the pending and overdue installments still owe. */
  function Outstanding(rows: seq<Installment>): int {
    if rows == [] then 0
    else (if IsOutstanding(rows[0]) then Owed(rows[0]) else 0) + Outstanding(rows[1..])
  }

  // ---------------------------------------------------------------------------
  // Properties of the allocation

  /** The allocation keeps every installment's number, due date and amount,
      only ever increases what was paid, and never pushes a row past its amount. */
  lemma {:induction false} WaterfallKeepsRows(rows: seq<Installment>, payment: int, today: int)
    requires RowsInRange(rows)
    ensures |Waterfall(rows, payment, today)| == |rows|
    ensures forall i :: 0 <= i < |rows| ==>
              var r := Waterfall(rows, payment, today)[i];
              && r.number == rows[i].number && r.dueDate == rows[i].dueDate && r.amount == rows[i].amount
              && rows[i].paidAmount <= r.paidAmount <= r.amount
  {
    if rows != [] && payment > 0 {
      var applied := if IsOutstanding(rows[0]) then Min(payment, Owed(rows[0])) else 0;
      WaterfallKeepsRows(rows[1..], payment - applied, today);
    }
  }

  /** Paid installments are never touched; an outstanding one becomes paid,
      with `today` as its paid date, exactly when what it has received reaches
      its amount, and otherwise keeps its status (an overdue installment that is
      only partly covered stays overdue) and its paid date. */
  lemma {:induction false} WaterfallStatus(rows: seq<Installment>, payment: int, today: int)
    requires RowsConsistent(rows)
    ensures |Waterfall(rows, payment, today)| == |rows|
    ensures forall i :: 0 <= i < |rows| && !IsOutstanding(rows[i]) ==> Waterfall(rows, payment, today)[i] == rows[i]
    ensures forall i :: 0 <= i < |rows| && IsOutstanding(rows[i]) ==>
              var r := Waterfall(rows, payment, today)[i];
              && r.status == (if r.paidAmount >= r.amount then Paid else rows[i].status)
              && r.paidDate == (if r.paidAmount >= r.amount then Some(today) else rows[i].paidDate)
  {
    if rows != [] && payment > 0 {
      var applied := if IsOutstanding(rows[0]) then Min(payment, Owed(rows[0])) else 0;
      var w := Waterfall(rows, payment, today);
      var tail := Waterfall(rows[1..], payment - applied, today);
      WaterfallStatus(rows[1..], payment - applied, today);
      assert forall k :: 1 <= k < |rows| ==> w[k] == tail[k - 1] && rows[k] == rows[1..][k - 1];
    }
  }

  /** Oldest first: an installment receives money only if every earlier
      outstanding installment ends fully paid, and once an installment is left
      short, every later installment is untouched. */
  lemma {:induction false} WaterfallOldestFirst(rows: seq<Installment>, payment: int, today: int)
    requires RowsInRange(rows)
    ensures |Waterfall(rows, payment, today)| == |rows|
    ensures forall i, j :: 0 <= i < j < |rows| && Waterfall(rows, payment, today)[j] != rows[j] ==>
              Waterfall(rows, payment, today)[i].status == Paid
    ensures forall i, j :: 0 <= i < j < |rows| && Waterfall(rows, payment, today)[i].status != Paid ==>
              Waterfall(rows, payment, today)[j] == rows[j]
  {
    var w := Waterfall(rows, payment, today);
    WaterfallKeepsRows(rows, payment, today);
    if rows != [] && payment > 0 {
      var applied := if IsOutstanding(rows[0]) then Min(payment, Owed(rows[0])) else 0;
      var tail := Waterfall(rows[1..], payment - applied, today);
      WaterfallOldestFirst(rows[1..], payment - applied, today);
      assert forall k :: 1 <= k < |rows| ==> w[k] == tail[k - 1];
      if payment - applied <= 0 {
        assert tail == rows[1..];
      } else {
        // money was left after the head, so the head ended fully paid
        assert w[0].status == Paid;
      }
    }
  }

  /** The allocation keeps rows consistent: within range, and paid exactly
      when covered. */
  lemma WaterfallConsistent(rows: seq<Installment>, payment: int, today: int)
    requires RowsConsistent(rows)
    ensures RowsConsistent(Waterfall(rows, payment, today))
  {
    WaterfallKeepsRows(rows, payment, today);
    WaterfallStatus(rows, payment, today);
  }

  lemma {:induction false} OutstandingBounds(rows: seq<Installment>)
    requires RowsInRange(rows)
    ensures Outstanding(rows) >= 0
  {
    if rows != [] {
      OutstandingBounds(rows[1..]);
    }
  }

  /** The total applied is the smaller of the payment and the sum of what the
      pending and overdue installments owe: what the installments have been paid
      grows by exactly that, what they owe shrinks by exactly that, and any
      excess of the payment is dropped. */
  lemma {:induction false} WaterfallTotal(rows: seq<Installment>, payment: int, today: int)
    requires RowsInRange(rows)
    requires payment >= 0
    ensures TotalPaid(Waterfall(rows, payment, today)) == TotalPaid(rows) + Min(payment, Outstanding(rows))
    ensures Outstanding(Waterfall(rows, payment, today)) == Outstanding(rows) - Min(payment, Outstanding(rows))
  {
    OutstandingBounds(rows);
    if rows != [] && payment > 0 {
      var applied := if IsOutstanding(rows[0]) then Min(payment, Owed(rows[0])) else 0;
      WaterfallTotal(rows[1..], payment - applied, today);
      OutstandingBounds(rows[1..]);
      var w := Waterfall(rows, payment, today);
      assert w[1..] == Waterfall(rows[1..], payment - applied, today);
      if IsOutstanding(rows[0]) && applied < payment {
        // the head was covered in full, so what is left passes to the tail
        assert applied == Owed(rows[0]);
      }
    }
  }

  /** Fresh installments owe exactly their amounts. */
  lemma {:induction false} OutstandingOfUnpaid(rows: seq<Installment>)
    requires Unpaid(rows)
    ensures Outstanding(rows) == TotalAmount(rows)
  {
    if rows != [] {
      OutstandingOfUnpaid(rows[1..]);
      TotalAmountPrepend(rows[0], rows[1..]);
      assert rows == [rows[0]] + rows[1..];
    }
  }

  /** When nothing is outstanding, every installment is paid. */
  lemma {:induction false} NothingOutstandingAllPaid(rows: seq<Installment>)
    requires RowsConsistent(rows)
    requires Outstanding(rows) <= 0
    ensures forall i :: 0 <= i < |rows| ==> rows[i].status == Paid
  {
    if rows != [] {
      OutstandingBounds(rows[1..]);
      NothingOutstandingAllPaid(rows[1..]);
      assert forall i :: 1 <= i < |rows| ==> rows[i] == rows[1..][i - 1];
    }
  }
}
