/** Inter-store transfers: a request names two different stores, a product
    and a quantity the source store holds; it is approved into transit,
    completed (which moves the stock between the two inventory rows), or
    cancelled at any point before completion. */
module Transfers {
  import opened Common
  import opened Text
  import Auth
  import Inventory
  import Stores

  /** The roles admitted by `authorize('supervisor', 'ceo')`. */
  const Managers: seq<Role> := [Supervisor, Ceo]

  datatype TransferStatus = Pending | InTransit | Completed | Cancelled

  /** An InventoryTransfer row. */
  datatype Transfer = Transfer(
    number: string,
    fromStoreId: Uuid,
    toStoreId: Uuid,
    productId: Uuid,
    quantity: int,
    status: TransferStatus,
    requestedBy: Uuid,
    requestedDate: int,
    approvedBy: Option<Uuid>,
    approvedDate: Option<int>,
    completedBy: Option<Uuid>,
    completedDate: Option<int>,
    notes: Option<string>)

  // ---------------------------------------------------------------------------
  // Transfer numbers

  function TransferPrefix(year: nat, month: nat): string {
    SerialPrefix("TRF", year, month)
  }

  /** How many transfers already carry a number starting with `prefix`. */
  function CountWithPrefix(transfers: map<Uuid, Transfer>, prefix: string): nat {
    |set id | id in transfers && StartsWith(transfers[id].number, prefix)|
  }

  /** `generateTransferNumber`: the month's prefix, a hyphen, and one more
      than the number of transfers carrying the prefix, in at least four digits. */
  function GenerateTransferNumber(transfers: map<Uuid, Transfer>, year: nat, month: nat): (n: string)
    ensures StartsWith(n, TransferPrefix(year, month) + "-")
    ensures AllDigits(n[|TransferPrefix(year, month)| + 1..])
    ensures |n[|TransferPrefix(year, month)| + 1..]| >= 4
    ensures DigitsValue(n[|TransferPrefix(year, month)| + 1..]) == CountWithPrefix(transfers, TransferPrefix(year, month)) + 1
  {
    var count := CountWithPrefix(transfers, TransferPrefix(year, month));
    SerialNumberShape("TRF", year, month, count, 4);
    SerialNumber("TRF", year, month, count, 4)
  }

  /** For a four-digit year and a month from 1 to 12, the number is
      "TRF-YYYYMM-" followed by the suffix, and it is exactly 15 characters long
      while fewer than 9999 transfers carry the prefix. */
  lemma TransferNumberLayout(transfers: map<Uuid, Transfer>, year: nat, month: nat)
    requires 1000 <= year <= 9999 && 1 <= month <= 12
    ensures |TransferPrefix(year, month)| == 10
    ensures CountWithPrefix(transfers, TransferPrefix(year, month)) < 9999 ==>
              |GenerateTransferNumber(transfers, year, month)| == 15
  {
    SerialPrefixLength("TRF", year, month);
    var count := CountWithPrefix(transfers, TransferPrefix(year, month));
    if count < 9999 {
      assert Pow10(4) == 10000;
      ShortNumberPadsToWidth(count + 1, 4);
    }
  }

  predicate NumberTaken(transfers: map<Uuid, Transfer>, number: string) {
    exists id :: id in transfers && transfers[id].number == number
  }

  // ---------------------------------------------------------------------------
  // The status machine

  datatype Action = Approve | Complete | Cancel

  /** The status a transfer moves to under an action, or None when the route
      refuses the action with 400: approve only from pending, complete only
      from in transit, cancel from anything but completed. */
  function Transition(s: TransferStatus, a: Action): (t: Option<TransferStatus>)
    ensures t.Some? ==> t.value != Pending
    ensures t.Some? && a == Approve ==> t.value == InTransit
    ensures t.Some? && a == Complete ==> t.value == Completed
    ensures t.Some? && a == Cancel ==> t.value == Cancelled
  {
    match a
    case Approve => if s == Pending then Some(InTransit) else None
    case Complete => if s == InTransit then Some(Completed) else None
    case Cancel => if s != Completed then Some(Cancelled) else None
  }

  /** Completed is terminal: every action on a completed transfer is refused. */
  lemma CompletedIsTerminal(a: Action)
    ensures Transition(Completed, a).None?
  {
  }

  /** Each action is allowed from exactly the statuses the routes accept. */
  lemma TransitionGuards(s: TransferStatus)
    ensures Transition(s, Approve).Some? <==> s == Pending
    ensures Transition(s, Complete).Some? <==> s == InTransit
    ensures Transition(s, Cancel).Some? <==> s != Completed
  {
  }

  /** The status after a sequence of actions; a refused action changes nothing. */
  function Run(s: TransferStatus, actions: seq<Action>): TransferStatus
    decreases |actions|
  {
    if actions == [] then s
    else
      var t := Transition(s, actions[0]);
      Run(if t.Some? then t.value else s, actions[1..])
  }

  /** How many of the actions complete the transfer, that is, move stock. */
  function Completions(s: TransferStatus, actions: seq<Action>): nat
    decreases |actions|
  {
    if actions == [] then 0
    else
      var t := Transition(s, actions[0]);
      (if actions[0] == Complete && t.Some? then 1 else 0)
      + Completions(if t.Some? then t.value else s, actions[1..])
  }

  /** Whatever actions are attempted, a transfer moves stock at most once, and
      never once it is completed or cancelled. */
  lemma {:induction false} StockMovesAtMostOnce(s: TransferStatus, actions: seq<Action>)
    ensures Completions(s, actions) <= (if s == Pending || s == InTransit then 1 else 0)
    decreases |actions|
  {
    if actions != [] {
      var t := Transition(s, actions[0]);
      StockMovesAtMostOnce(if t.Some? then t.value else s, actions[1..]);
    }
  }

  /** A transfer requested as pending ends completed only if it was approved
      on the way. */
  lemma {:induction false} CompletionNeedsApproval(s: TransferStatus, actions: seq<Action>)
    requires s == Pending
    requires Run(s, actions) == Completed
    ensures Approve in actions && Complete in actions
    decreases |actions|
  {
    assert actions != [];
    var t := Transition(s, actions[0]);
    if actions[0] != Approve || t.None? {
      assert Run(s, actions) == Run(if t.Some? then t.value else s, actions[1..]);
      if t.Some? {
        // a cancelled transfer stays cancelled
        CancelledStays(actions[1..]);
        assert false;
      }
      CompletionNeedsApproval(s, actions[1..]);
    } else {
      InTransitCompletesOnlyByComplete(actions[1..]);
    }
  }

  lemma {:induction false} CancelledStays(actions: seq<Action>)
    ensures Run(Cancelled, actions) == Cancelled
    decreases |actions|
  {
    if actions != [] {
      CancelledStays(actions[1..]);
    }
  }

  lemma {:induction false} InTransitCompletesOnlyByComplete(actions: seq<Action>)
    requires Run(InTransit, actions) == Completed
    ensures Complete in actions
    decreases |actions|
  {
    assert actions != [];
    if actions[0] != Complete {
      var t := Transition(InTransit, actions[0]);
      if t.Some? {
        CancelledStays(actions[1..]);
        assert false;
      }
      InTransitCompletesOnlyByComplete(actions[1..]);
    }
  }

  // ---------------------------------------------------------------------------
  // Moving stock

  /** Completion's stock movement: the source row loses `quantity`, then the
      destination row (created at its defaults when missing) gains it. */
  function MoveStock(rows: map<Inventory.StockKey, Inventory.StockRow>, from: Inventory.StockKey,
                     to: Inventory.StockKey, quantity: int): (moved: map<Inventory.StockKey, Inventory.StockRow>)
    requires from in rows
    ensures moved.Keys == rows.Keys + {to}
    ensures from != to ==>
              && moved[from] == rows[from].(quantity := rows[from].quantity - quantity)
              && moved[to] == Inventory.RowOrDefault(rows, to).(quantity := Inventory.RowOrDefault(rows, to).quantity + quantity)
    ensures from == to ==> moved == rows
    ensures forall k :: k in rows && k != from && k != to ==> moved[k] == rows[k]
  {
    var source := rows[from];
    var afterSource := rows[from := source.(quantity := source.quantity - quantity)];
    var destination := Inventory.RowOrDefault(afterSource, to);
    afterSource[to := destination.(quantity := destination.quantity + quantity)]
  }

  /** The two rows together hold as much after the move as before: stock is
      neither created nor lost. */
  lemma MoveConserves(rows: map<Inventory.StockKey, Inventory.StockRow>, from: Inventory.StockKey,
                      to: Inventory.StockKey, quantity: int)
    requires from in rows
    ensures var moved := MoveStock(rows, from, to, quantity);
            moved[from].quantity + (if from == to then 0 else moved[to].quantity)
            == rows[from].quantity + (if from == to then 0 else Inventory.RowOrDefault(rows, to).quantity)
  {
  }

  /** Moving no more than the source holds keeps every row non-negative. */
  lemma MoveKeepsStockNonNegative(rows: map<Inventory.StockKey, Inventory.StockRow>, from: Inventory.StockKey,
                                  to: Inventory.StockKey, quantity: int)
    requires from in rows && 0 <= quantity <= rows[from].quantity
    requires forall k :: k in rows ==> rows[k].quantity >= 0
    ensures var moved := MoveStock(rows, from, to, quantity);
            forall k :: k in moved ==> moved[k].quantity >= 0
  {
  }

  // ---------------------------------------------------------------------------
  // The transfers table

  /** What every stored transfer satisfies: two different stores, a positive
      quantity, and the approver and completer recorded once those steps are done. */
  predicate TransferWellFormed(t: Transfer) {
    && t.fromStoreId != t.toStoreId
    && t.quantity >= 1
    && (t.status == InTransit ==> t.approvedBy.Some?)
    && (t.status == Completed ==> t.approvedBy.Some? && t.completedBy.Some?)
  }

  /** The unique index on `transfer_number`. */
  predicate UniqueNumbers(transfers: map<Uuid, Transfer>) {
    forall a, b :: a in transfers && b in transfers && a != b ==> transfers[a].number != transfers[b].number
  }

  predicate BookValid(transfers: map<Uuid, Transfer>) {
    (forall id :: id in transfers ==> TransferWellFormed(transfers[id])) && UniqueNumbers(transfers)
  }

  lemma NewTransferKeepsValid(transfers: map<Uuid, Transfer>, id: Uuid, t: Transfer)
    requires BookValid(transfers)
    requires id !in transfers && !NumberTaken(transfers, t.number) && TransferWellFormed(t)
    ensures BookValid(transfers[id := t])
  {
  }

  lemma RowUpdateKeepsValid(transfers: map<Uuid, Transfer>, id: Uuid, t: Transfer)
    requires BookValid(transfers)
    requires id in transfers && t.number == transfers[id].number && TransferWellFormed(t)
    ensures BookValid(transfers[id := t])
  {
  }

  /** The validators of POST /transfers. */
  predicate RequestFieldsValid(fromStoreId: string, toStoreId: string, productId: string, quantity: int) {
    IsUuid(fromStoreId) && IsUuid(toStoreId) && IsUuid(productId) && quantity >= 1
  }

  /** The source store holds at least `quantity` units of the product. */
  predicate SourceHolds(rows: map<Inventory.StockKey, Inventory.StockRow>, key: Inventory.StockKey, quantity: int) {
    key in rows && rows[key].quantity >= quantity
  }

  /** Every check of a transfer request before the insert passes: the role,
      the fields, both stores exist and differ, and the source holds the
      quantity. */
  predicate RequestAdmissible(caller: User, fromStoreId: string, toStoreId: string, productId: string, quantity: int,
                              storeIds: set<Uuid>, rows: map<Inventory.StockKey, Inventory.StockRow>) {
    && Auth.Permits(caller, Managers) && RequestFieldsValid(fromStoreId, toStoreId, productId, quantity)
    && fromStoreId in storeIds && toStoreId in storeIds && fromStoreId != toStoreId
    && SourceHolds(rows, (fromStoreId, productId), quantity)
  }

  class TransferBook {
    var transfers: map<Uuid, Transfer>

    ghost predicate Valid()
      reads this
    {
      BookValid(transfers)
    }

    constructor ()
      ensures Valid() && transfers == map[]
    {
      transfers := map[];
    }

    /** The checks of POST /transfers before the insert, in the route's
        order: 403 for other roles, 400 for bad fields, 404 when either
        store is missing, 400 for the same store, and 400 when the source
        store's stock row is missing or short. Nothing changes. */
    static method CheckRequest(caller: User, fromStoreId: string, toStoreId: string, productId: string,
                               quantity: int, stores: Stores.StoreBook, stock: Inventory.StockBook)
      returns (refusal: Option<int>)
      ensures !Auth.Permits(caller, Managers) ==> refusal == Some(Forbidden)
      ensures (Auth.Permits(caller, Managers) && !RequestFieldsValid(fromStoreId, toStoreId, productId, quantity))
                ==> refusal == Some(BadRequest)
      ensures (Auth.Permits(caller, Managers) && RequestFieldsValid(fromStoreId, toStoreId, productId, quantity)
               && (fromStoreId !in stores.stores || toStoreId !in stores.stores)) ==> refusal == Some(NotFound)
      ensures (Auth.Permits(caller, Managers) && RequestFieldsValid(fromStoreId, toStoreId, productId, quantity)
               && fromStoreId in stores.stores && toStoreId in stores.stores
               && (fromStoreId == toStoreId || !SourceHolds(stock.rows, (fromStoreId, productId), quantity)))
                ==> refusal == Some(BadRequest)
      ensures refusal.None? <==>
                RequestAdmissible(caller, fromStoreId, toStoreId, productId, quantity, stores.stores.Keys, stock.rows)
    {
      if !Auth.Permits(caller, Managers) {
        return Some(Forbidden);
      }
      if !RequestFieldsValid(fromStoreId, toStoreId, productId, quantity) {
        return Some(BadRequest);
      }
      if fromStoreId !in stores.stores || toStoreId !in stores.stores {
        return Some(NotFound);
      }
      if fromStoreId == toStoreId {
        return Some(BadRequest);
      }
      if !SourceHolds(stock.rows, (fromStoreId, productId), quantity) {
        return Some(BadRequest);
      }
      return None;
    }

    /** POST /transfers: supervisors and the CEO request a pending transfer
        between two existing, different stores whose source holds the
        quantity; no stock moves yet. A taken id or transfer number violates
        a unique index (409). */
    method Request(caller: User, id: Uuid, fromStoreId: string, toStoreId: string, productId: string,
                   quantity: int, notes: Option<string>, stores: Stores.StoreBook, stock: Inventory.StockBook,
                   now: int, year: nat, month: nat) returns (r: Result<Transfer>)
      requires Valid()
      modifies this
      ensures Valid()
      ensures !Auth.Permits(caller, Managers) ==> r == Err(Forbidden)
      ensures (Auth.Permits(caller, Managers) && !RequestFieldsValid(fromStoreId, toStoreId, productId, quantity))
                ==> r == Err(BadRequest)
      ensures (Auth.Permits(caller, Managers) && RequestFieldsValid(fromStoreId, toStoreId, productId, quantity)
               && (fromStoreId !in old(stores.stores) || toStoreId !in old(stores.stores))) ==> r == Err(NotFound)
      ensures (Auth.Permits(caller, Managers) && RequestFieldsValid(fromStoreId, toStoreId, productId, quantity)
               && fromStoreId in old(stores.stores) && toStoreId in old(stores.stores)
               && (fromStoreId == toStoreId || !SourceHolds(old(stock.rows), (fromStoreId, productId), quantity)))
                ==> r == Err(BadRequest)
      ensures r.Ok? <==>
                && RequestAdmissible(caller, fromStoreId, toStoreId, productId, quantity,
                                     old(stores.stores).Keys, old(stock.rows))
                && id !in old(transfers) && !NumberTaken(old(transfers), GenerateTransferNumber(old(transfers), year, month))
      ensures (RequestAdmissible(caller, fromStoreId, toStoreId, productId, quantity,
                                 old(stores.stores).Keys, old(stock.rows))
               && (id in old(transfers) || NumberTaken(old(transfers), GenerateTransferNumber(old(transfers), year, month))))
                ==> r == Err(Conflict)
      ensures r.Err? ==> r.status in {Forbidden, BadRequest, NotFound, Conflict} && transfers == old(transfers)
      ensures r.Ok? ==>
                && r.value == Transfer(GenerateTransferNumber(old(transfers), year, month), fromStoreId, toStoreId,
                                       productId, quantity, Pending, caller.id, now, None, None, None, None,
                                       TrimOption(notes))
                && transfers == old(transfers)[id := r.value]
    {
      var refusal := CheckRequest(caller, fromStoreId, toStoreId, productId, quantity, stores, stock);
      if refusal.Some? {
        return Err(refusal.value);
      }
      var number := GenerateTransferNumber(transfers, year, month);
      if id in transfers || NumberTaken(transfers, number) {
        // the primary key or the unique transfer number is already in use
        return Err(Conflict);
      }
      var transfer := Transfer(number, fromStoreId, toStoreId, productId, quantity, Pending, caller.id, now,
                               None, None, None, None, TrimOption(notes));
      NewTransferKeepsValid(transfers, id, transfer);
      transfers := transfers[id := transfer];
      r := Ok(transfer);
    }

    /** PUT /transfers/:id/approve: a pending transfer goes into transit,
        recording who approved it and when. */
    method ApproveTransfer(caller: User, id: Uuid, now: int) returns (r: Result<Transfer>)
      requires Valid()
      modifies this
      ensures Valid()
      ensures !Auth.Permits(caller, Managers) ==> r == Err(Forbidden)
      ensures (Auth.Permits(caller, Managers) && id !in old(transfers)) ==> r == Err(NotFound)
      ensures (Auth.Permits(caller, Managers) && id in old(transfers)
               && Transition(old(transfers)[id].status, Approve).None?) ==> r == Err(BadRequest)
      ensures r.Ok? <==>
                Auth.Permits(caller, Managers) && id in old(transfers)
                && Transition(old(transfers)[id].status, Approve).Some?
      ensures r.Err? ==> r.status in {Forbidden, NotFound, BadRequest} && transfers == old(transfers)
      ensures r.Ok? ==>
                && r.value == old(transfers)[id].(status := Transition(old(transfers)[id].status, Approve).value,
                                                 approvedBy := Some(caller.id), approvedDate := Some(now))
                && transfers == old(transfers)[id := r.value]
    {
      if !Auth.Permits(caller, Managers) {
        return Err(Forbidden);
      }
      if id !in transfers {
        return Err(NotFound);
      }
      var t := transfers[id];
      if t.status != Pending {
        return Err(BadRequest);
      }
      var updated := t.(status := InTransit, approvedBy := Some(caller.id), approvedDate := Some(now));
      RowUpdateKeepsValid(transfers, id, updated);
      transfers := transfers[id := updated];
      r := Ok(updated);
    }

    /** PUT /transfers/:id/complete: an in-transit transfer whose source
        still holds the quantity moves the stock and becomes completed; when
        the source is short, nothing changes. */
    method CompleteTransfer(caller: User, id: Uuid, stock: Inventory.StockBook, now: int) returns (r: Result<Transfer>)
      requires Valid() && stock.Valid()
      modifies this, stock
      ensures Valid() && stock.Valid()
      ensures !Auth.Permits(caller, Managers) ==> r == Err(Forbidden)
      ensures (Auth.Permits(caller, Managers) && id !in old(transfers)) ==> r == Err(NotFound)
      ensures (Auth.Permits(caller, Managers) && id in old(transfers)
               && Transition(old(transfers)[id].status, Complete).None?) ==> r == Err(BadRequest)
      ensures (Auth.Permits(caller, Managers) && id in old(transfers)
               && Transition(old(transfers)[id].status, Complete).Some?
               && var t := old(transfers)[id];
                  !SourceHolds(old(stock.rows), (t.fromStoreId, t.productId), t.quantity)) ==> r == Err(BadRequest)
      ensures r.Ok? <==>
                && Auth.Permits(caller, Managers) && id in old(transfers)
                && Transition(old(transfers)[id].status, Complete).Some?
                && var t := old(transfers)[id];
                   SourceHolds(old(stock.rows), (t.fromStoreId, t.productId), t.quantity)
      ensures r.Err? ==> r.status in {Forbidden, NotFound, BadRequest}
      ensures r.Err? ==> transfers == old(transfers) && stock.rows == old(stock.rows)
      ensures stock.log == old(stock.log)
      ensures r.Ok? ==>
                var t := old(transfers)[id];
                && r.value == t.(status := Completed, completedBy := Some(caller.id), completedDate := Some(now))
                && transfers == old(transfers)[id := r.value]
                && stock.rows == MoveStock(old(stock.rows), (t.fromStoreId, t.productId), (t.toStoreId, t.productId),
                                           t.quantity)
    {
      if !Auth.Permits(caller, Managers) {
        return Err(Forbidden);
      }
      if id !in transfers {
        return Err(NotFound);
      }
      var t := transfers[id];
      if t.status != InTransit {
        return Err(BadRequest);
      }
      var fromKey := (t.fromStoreId, t.productId);
      if fromKey !in stock.rows || stock.rows[fromKey].quantity < t.quantity {
        return Err(BadRequest);
      }
      MoveKeepsStockNonNegative(stock.rows, fromKey, (t.toStoreId, t.productId), t.quantity);
      stock.rows := MoveStock(stock.rows, fromKey, (t.toStoreId, t.productId), t.quantity);
      var updated := t.(status := Completed, completedBy := Some(caller.id), completedDate := Some(now));
      RowUpdateKeepsValid(transfers, id, updated);
      transfers := transfers[id := updated];
      r := Ok(updated);
    }

    /** PUT /transfers/:id/cancel: any transfer not yet completed becomes
        cancelled; stock is never touched. */
    method CancelTransfer(caller: User, id: Uuid) returns (r: Result<Transfer>)
      requires Valid()
      modifies this
      ensures Valid()
      ensures !Auth.Permits(caller, Managers) ==> r == Err(Forbidden)
      ensures (Auth.Permits(caller, Managers) && id !in old(transfers)) ==> r == Err(NotFound)
      ensures (Auth.Permits(caller, Managers) && id in old(transfers)
               && Transition(old(transfers)[id].status, Cancel).None?) ==> r == Err(BadRequest)
      ensures r.Ok? <==>
                Auth.Permits(caller, Managers) && id in old(transfers)
                && Transition(old(transfers)[id].status, Cancel).Some?
      ensures r.Err? ==> r.status in {Forbidden, NotFound, BadRequest} && transfers == old(transfers)
      ensures r.Ok? ==>
                && r.value == old(transfers)[id].(status := Cancelled)
                && transfers == old(transfers)[id := r.value]
    {
      if !Auth.Permits(caller, Managers) {
        return Err(Forbidden);
      }
      if id !in transfers {
        return Err(NotFound);
      }
      var t := transfers[id];
      if t.status == Completed {
        return Err(BadRequest);
      }
      var updated := t.(status := Cancelled);
      RowUpdateKeepsValid(transfers, id, updated);
      transfers := transfers[id := updated];
      r := Ok(updated);
    }
  }
}
