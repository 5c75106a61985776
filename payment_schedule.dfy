/** Installment generation for a new payment plan (the loop in
    POST /debts/:id/payment-plan). Starting at the plan's start date, one
    installment is emitted per period while the date has not passed the end
    date and principal remains; each is capped by the remaining principal. */
module PaymentSchedule {
  import opened Common

  datatype Frequency = Daily | Weekly | Monthly

  datatype InstallmentStatus = Pending | Paid | Overdue

  /** A PaymentPlanInstallment row: amounts in cents, dates as day numbers. */
  datatype Installment = Installment(
    number: nat,
    dueDate: int,
    amount: int,
    paidAmount: int,
    status: InstallmentStatus,
    paidDate: Option<int>)

  /** One period after `date`: +1 day, +7 days, or one calendar month, the
      latter given by the host calendar as `addMonth`. */
  function NextDueDate(date: int, frequency: Frequency, addMonth: int -> int): int {
    match frequency
    case Daily => date + 1
    case Weekly => date + 7
    case Monthly => addMonth(date)
  }

  /** The calendar's month step moves every date strictly forward. */
  ghost predicate Advances(addMonth: int -> int) {
    forall d :: addMonth(d) > d
  }

  /** The rest of the schedule from the loop state (next installment number,
      current date, remaining principal). */
  function Schedule(number: nat, date: int, remaining: int, installmentAmount: int,
                    frequency: Frequency, endDate: int, addMonth: int -> int): seq<Installment>
    requires installmentAmount > 0
    decreases if remaining > 0 then remaining else 0
  {
    if date <= endDate && remaining > 0 then
      var amount := Min(installmentAmount, remaining);
      [Installment(number, date, amount, 0, Pending, None)]
        + Schedule(number + 1, NextDueDate(date, frequency, addMonth), remaining - amount,
                   installmentAmount, frequency, endDate, addMonth)
    else
      []
  }

  /** The schedule of a whole plan: numbering from 1, first due on `startDate`,
      covering `principal`. */
  function PlanSchedule(principal: int, installmentAmount: int, frequency: Frequency,
                        startDate: int, endDate: int, addMonth: int -> int): seq<Installment>
    requires installmentAmount > 0
  {
    Schedule(1, startDate, principal, installmentAmount, frequency, endDate, addMonth)
  }

  /** The loop of the payment-plan route, building the installment list. */
  method GenerateInstallments(principal: int, installmentAmount: int, frequency: Frequency,
                              startDate: int, endDate: int, addMonth: int -> int)
    returns (installments: seq<Installment>)
    requires installmentAmount > 0
    ensures installments == PlanSchedule(principal, installmentAmount, frequency, startDate, endDate, addMonth)
  {
    installments := [];
    var currentDate := startDate;
    var installmentNumber := 1;
    var remainingAmount := principal;
    while currentDate <= endDate && remainingAmount > 0
      invariant installments
        + Schedule(installmentNumber, currentDate, remainingAmount, installmentAmount, frequency, endDate, addMonth)
        == PlanSchedule(principal, installmentAmount, frequency, startDate, endDate, addMonth)
      decreases if remainingAmount > 0 then remainingAmount else 0
    {
      var amount := Min(installmentAmount, remainingAmount);
      var row := Installment(installmentNumber, currentDate, amount, 0, Pending, None);
      ghost var rest := Schedule(installmentNumber + 1, NextDueDate(currentDate, frequency, addMonth),
                                 remainingAmount - amount, installmentAmount, frequency, endDate, addMonth);
      assert installments + ([row] + rest) == (installments + [row]) + rest;
      installments := installments + [row];
      installmentNumber := installmentNumber + 1;
      remainingAmount := remainingAmount - amount;
      currentDate := NextDueDate(currentDate, frequency, addMonth);
    }
  }

  // ---------------------------------------------------------------------------
  // Sums over installment lists

  function TotalAmount(rows: seq<Installment>): int {
    if rows == [] then 0 else TotalAmount(rows[..|rows| - 1]) + rows[|rows| - 1].amount
  }

  // ---------------------------------------------------------------------------
  // Shapes of an installment list

  /** Installment numbers run first, first + 1, ... with no gaps. */
  predicate NumberedFrom(rows: seq<Installment>, first: nat) {
    forall i :: 0 <= i < |rows| ==> rows[i].number == first + i
  }

  /** Each installment is due exactly one period after its predecessor. */
  predicate SpacedByPeriod(rows: seq<Installment>, frequency: Frequency, addMonth: int -> int) {
    forall i :: 0 <= i < |rows| - 1 ==> rows[i + 1].dueDate == NextDueDate(rows[i].dueDate, frequency, addMonth)
  }

  predicate DueBy(rows: seq<Installment>, endDate: int) {
    forall i :: 0 <= i < |rows| ==> rows[i].dueDate <= endDate
  }

  predicate DueDatesIncrease(rows: seq<Installment>) {
    forall i, j :: 0 <= i < j < |rows| ==> rows[i].dueDate < rows[j].dueDate
  }

  /** Nothing paid yet: the defaults of a freshly created installment row. */
  predicate Unpaid(rows: seq<Installment>) {
    forall i :: 0 <= i < |rows| ==> rows[i].paidAmount == 0 && rows[i].status == Pending && rows[i].paidDate == None
  }

  /** Each installment owes at least one cent and at most the installment
      amount, and all but the last owe exactly the installment amount. */
  predicate CappedBy(rows: seq<Installment>, installmentAmount: int) {
    && (forall i :: 0 <= i < |rows| ==> 0 < rows[i].amount <= installmentAmount)
    && (forall i :: 0 <= i < |rows| - 1 ==> rows[i].amount == installmentAmount)
  }

  // ---------------------------------------------------------------------------
  // Properties of the schedule

  /** Installments are numbered consecutively from the starting number, the
      first is due on the starting date, each later one exactly one period
      after its predecessor, and none after the end date. */
  lemma {:induction false} ScheduleShape(number: nat, date: int, remaining: int, installmentAmount: int,
                                         frequency: Frequency, endDate: int, addMonth: int -> int)
    requires installmentAmount > 0
    ensures NumberedFrom(Schedule(number, date, remaining, installmentAmount, frequency, endDate, addMonth), number)
    ensures SpacedByPeriod(Schedule(number, date, remaining, installmentAmount, frequency, endDate, addMonth), frequency, addMonth)
    ensures DueBy(Schedule(number, date, remaining, installmentAmount, frequency, endDate, addMonth), endDate)
    ensures Schedule(number, date, remaining, installmentAmount, frequency, endDate, addMonth) != [] ==>
              Schedule(number, date, remaining, installmentAmount, frequency, endDate, addMonth)[0].dueDate == date
    decreases if remaining > 0 then remaining else 0
  {
    if date <= endDate && remaining > 0 {
      var amount := Min(installmentAmount, remaining);
      var next := NextDueDate(date, frequency, addMonth);
      var s := Schedule(number, date, remaining, installmentAmount, frequency, endDate, addMonth);
      var t := Schedule(number + 1, next, remaining - amount, installmentAmount, frequency, endDate, addMonth);
      ScheduleShape(number + 1, next, remaining - amount, installmentAmount, frequency, endDate, addMonth);
      assert s == [Installment(number, date, amount, 0, Pending, None)] + t;
      assert forall i :: 1 <= i < |s| ==> s[i] == t[i - 1];
    }
  }

  /** A list spaced by a forward-moving period has strictly increasing due dates. */
  lemma SpacedDatesIncrease(rows: seq<Installment>, frequency: Frequency, addMonth: int -> int)
    requires Advances(addMonth)
    requires SpacedByPeriod(rows, frequency, addMonth)
    ensures DueDatesIncrease(rows)
  {
    forall i, j | 0 <= i < j < |rows|
      ensures rows[i].dueDate < rows[j].dueDate
    {
      var k := i;
      while k < j
        invariant i <= k <= j
        invariant k > i ==> rows[i].dueDate < rows[k].dueDate
      {
        assert rows[k + 1].dueDate == NextDueDate(rows[k].dueDate, frequency, addMonth);
        k := k + 1;
      }
    }
  }

  /** Every installment is new (nothing paid, pending) and owes between one
      cent and the installment amount; all but the last owe exactly the
      installment amount. */
  lemma {:induction false} ScheduleAmounts(number: nat, date: int, remaining: int, installmentAmount: int,
                                           frequency: Frequency, endDate: int, addMonth: int -> int)
    requires installmentAmount > 0
    ensures CappedBy(Schedule(number, date, remaining, installmentAmount, frequency, endDate, addMonth), installmentAmount)
    ensures Unpaid(Schedule(number, date, remaining, installmentAmount, frequency, endDate, addMonth))
    decreases if remaining > 0 then remaining else 0
  {
    if date <= endDate && remaining > 0 {
      var amount := Min(installmentAmount, remaining);
      var next := NextDueDate(date, frequency, addMonth);
      var s := Schedule(number, date, remaining, installmentAmount, frequency, endDate, addMonth);
      var t := Schedule(number + 1, next, remaining - amount, installmentAmount, frequency, endDate, addMonth);
      ScheduleAmounts(number + 1, next, remaining - amount, installmentAmount, frequency, endDate, addMonth);
      assert s == [Installment(number, date, amount, 0, Pending, None)] + t;
      assert forall i :: 1 <= i < |s| ==> s[i] == t[i - 1];
      if t != [] {
        // the tail is non-empty only when principal was left after this installment
        assert remaining - amount > 0 && amount == installmentAmount;
      }
    }
  }

  lemma {:induction false} TotalAmountPrepend(r: Installment, rows: seq<Installment>)
    ensures TotalAmount([r] + rows) == r.amount + TotalAmount(rows)
    decreases |rows|
  {
    if rows != [] {
      var all := [r] + rows;
      assert all[..|all| - 1] == [r] + rows[..|rows| - 1];
      TotalAmountPrepend(r, rows[..|rows| - 1]);
    }
  }

  /** The date after which generation would continue: one period past the last
      installment, or the starting date when there is none. */
  function NextAfter(rows: seq<Installment>, date: int, frequency: Frequency, addMonth: int -> int): int {
    if rows == [] then date else NextDueDate(rows[|rows| - 1].dueDate, frequency, addMonth)
  }

  /** The installments never ask for more than the remaining principal, and
      they ask for all of it unless the next period would pass the end date. */
  lemma {:induction false} ScheduleCoverage(number: nat, date: int, remaining: int, installmentAmount: int,
                                            frequency: Frequency, endDate: int, addMonth: int -> int)
    requires installmentAmount > 0
    requires remaining >= 0
    ensures TotalAmount(Schedule(number, date, remaining, installmentAmount, frequency, endDate, addMonth)) <= remaining
    ensures TotalAmount(Schedule(number, date, remaining, installmentAmount, frequency, endDate, addMonth)) == remaining
            || NextAfter(Schedule(number, date, remaining, installmentAmount, frequency, endDate, addMonth),
                         date, frequency, addMonth) > endDate
    decreases remaining
  {
    var s := Schedule(number, date, remaining, installmentAmount, frequency, endDate, addMonth);
    if date <= endDate && remaining > 0 {
      var amount := Min(installmentAmount, remaining);
      var nextDate := NextDueDate(date, frequency, addMonth);
      var t := Schedule(number + 1, nextDate, remaining - amount, installmentAmount, frequency, endDate, addMonth);
      ScheduleCoverage(number + 1, nextDate, remaining - amount, installmentAmount, frequency, endDate, addMonth);
      assert s == [Installment(number, date, amount, 0, Pending, None)] + t;
      TotalAmountPrepend(s[0], t);
      if t != [] {
        assert s[|s| - 1] == t[|t| - 1];
      }
    }
  }

  /** No installment is generated exactly when the start date is after the end
      date or there is no principal left. */
  lemma ScheduleEmpty(number: nat, date: int, remaining: int, installmentAmount: int,
                      frequency: Frequency, endDate: int, addMonth: int -> int)
    requires installmentAmount > 0
    ensures Schedule(number, date, remaining, installmentAmount, frequency, endDate, addMonth) == []
            <==> (date > endDate || remaining <= 0)
  {
  }
}
