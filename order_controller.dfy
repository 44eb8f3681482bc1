/** The order controller's write paths: creating an order with its cart rows
    in one transaction, and the two guarded status transitions. Each takes the
    day ("today") and the driver fault as parameters and runs its steps in the
    controller's order; every failure after the transaction began rolls back,
    releases the connection and rejects with code 500. */
module OrderController {
  import opened OrderTypes
  import opened Pricing
  import opened OrderNumber
  import opened OrderStatus
  import opened OrderStore

  /** The order_cart row for one cart item: quantity is the item's `count`. */
  function CartRowOf(orderId: nat, item: CartItem): CartRow {
    CartRow(orderId, item.productId, item.count, item.price)
  }

  /** The rows the cart inserts leave behind when the insert of item
      `failing` errs (and the others, all issued together, go through). */
  function InsertedRows(orderId: nat, items: seq<CartItem>, failing: int): (rows: seq<CartRow>)
    ensures |rows| == |items| - (if 0 <= failing < |items| then 1 else 0)
    ensures forall k :: 0 <= k < |rows| ==> rows[k].orderId == orderId
  {
    if items == [] then []
    else
      InsertedRows(orderId, items[..|items| - 1], failing) +
      (if |items| - 1 == failing then [] else [CartRowOf(orderId, items[|items| - 1])])
  }

  /** The rows a fully successful insertCartItems adds. */
  function CartRows(orderId: nat, items: seq<CartItem>): seq<CartRow> {
    InsertedRows(orderId, items, -1)
  }

  /** One order_cart row per cart item, in cart order, with the new order's id,
      the item's product_id, quantity = the item's count and the item's price. */
  lemma {:induction false} CartRowsAt(orderId: nat, items: seq<CartItem>)
    ensures |CartRows(orderId, items)| == |items|
    ensures forall i :: 0 <= i < |items| ==>
              CartRows(orderId, items)[i] == CartRow(orderId, items[i].productId, items[i].count, items[i].price)
  {
    if items != [] {
      var prefix := items[..|items| - 1];
      CartRowsAt(orderId, prefix);
      assert forall i :: 0 <= i < |prefix| ==> prefix[i] == items[i];
    }
  }

  /** When no insert in range fails, every item gets its row. */
  lemma {:induction false} InsertedRowsWithoutFailure(orderId: nat, items: seq<CartItem>, failing: int)
    requires failing < 0 || |items| <= failing
    ensures InsertedRows(orderId, items, failing) == CartRows(orderId, items)
  {
    if items != [] {
      InsertedRowsWithoutFailure(orderId, items[..|items| - 1], failing);
    }
  }

  /** The index of the cart item whose insert fails, or -1. */
  function FailingItem(fault: Fault): int {
    if fault.CartInsertFault? then fault.index else -1
  }

  /** The faults that make createOrder reject, for a cart of `n` items. */
  predicate CreateFails(fault: Fault, n: nat) {
    fault.ConnectionFault? || fault.BeginFault? || fault.LookupFault? ||
    fault.InsertHeaderFault? || fault.MissingInsertId? || fault.CommitFault? ||
    (fault.CartInsertFault? && fault.index < n)
  }

  /** createOrder gets as far as inserting a header (which takes an order_id
      from AUTO_INCREMENT, rolled back or not) unless one of these faults hits. */
  predicate HeaderInserted(fault: Fault) {
    !(fault.ConnectionFault? || fault.BeginFault? || fault.LookupFault? || fault.InsertHeaderFault?)
  }

  /** The message createOrder rejects with, for each failing step. */
  function CreateFailureMessage(fault: Fault): string {
    match fault
    case ConnectionFault => "Database connection failed"
    case BeginFault => "Transaction initialization failed"
    case LookupFault => "Error fetching latest order_no"
    case InsertHeaderFault => "Error inserting into order_master"
    case MissingInsertId => "Error inserting into order_master"
    case CartInsertFault(_) => "Error inserting into order_cart"
    case _ => "Transaction commit failed"
  }

  /** The faults that make a status transition reject whatever the order's status. */
  predicate TransitionFails(fault: Fault) {
    fault.ConnectionFault? || fault.BeginFault? || fault.LookupFault? ||
    fault.UpdateFault? || fault.ZeroAffectedRows? || fault.CommitFault?
  }

  /** The message a status transition from `from` rejects with, given the row
      its SELECT found and the fault. The lookup and guard messages differ
      between markOrderAsDone and markOrderAsClose. */
  function TransitionFailureMessage(found: Option<OrderHeader>, fault: Fault, from: Status,
                                    lookupMessage: string, guardMessage: string): string {
    if fault == ConnectionFault then "Database connection failed"
    else if fault == BeginFault then "Transaction initialization failed"
    else if fault == LookupFault then lookupMessage
    else if found.None? then "Order not found"
    else if found.value.status != from then guardMessage
    else if fault == UpdateFault || fault == ZeroAffectedRows then "Failed to update order status"
    else "Transaction commit failed"
  }

  /** A consistent table pair stays consistent when an order with the next
      AUTO_INCREMENT id, numbered above every order of its day, is added with
      its cart rows. */
  lemma CreatedTablesConsistent(t: Tables, nextId: nat, h: OrderHeader, items: seq<CartItem>)
    requires Consistent(t, nextId) && 1 <= nextId
    requires h.orderId == nextId && h.orderNo >= 1
    requires forall i :: 0 <= i < |t.orderMaster| && t.orderMaster[i].orderDate == h.orderDate ==>
               t.orderMaster[i].orderNo < h.orderNo
    ensures Consistent(Tables(t.orderMaster + [h], t.orderCart + CartRows(nextId, items)), nextId + 1)
  {
    var master := t.orderMaster + [h];
    var cart := t.orderCart + CartRows(nextId, items);
    LargerNumberKeepsDayNumbersUnique(t.orderMaster, h);
    CartRowsAt(nextId, items);
    forall k | 0 <= k < |cart| ensures HasOrder(master, cart[k].orderId) {
      if k < |t.orderCart| {
        var i :| 0 <= i < |t.orderMaster| && t.orderMaster[i].orderId == t.orderCart[k].orderId;
        assert master[i] == t.orderMaster[i];
      } else {
        assert cart[k] == CartRows(nextId, items)[k - |t.orderCart|];
        assert master[|t.orderMaster|] == h;
      }
    }
  }

  /** Handing out more ids keeps the tables consistent (a rollback does not
      give AUTO_INCREMENT values back). */
  lemma ConsistentUnderLargerBound(t: Tables, nextId: nat, bound: nat)
    requires Consistent(t, nextId) && nextId <= bound
    ensures Consistent(t, bound)
  {
  }

  /** A status update leaves every key, number, day and cart row in place. */
  lemma StatusUpdateConsistent(t: Tables, nextId: nat, orderId: nat, s: Status)
    requires Consistent(t, nextId)
    ensures Consistent(t.(orderMaster := SetStatus(t.orderMaster, orderId, s)), nextId)
  {
    var master := SetStatus(t.orderMaster, orderId, s);
    forall k | 0 <= k < |t.orderCart| ensures HasOrder(master, t.orderCart[k].orderId) {
      var i :| 0 <= i < |t.orderMaster| && t.orderMaster[i].orderId == t.orderCart[k].orderId;
      assert master[i].orderId == t.orderMaster[i].orderId;
    }
  }

  /** rollbackWithError: roll the transaction back, give the connection back
      to the pool, and reject with code 500 and `message`. */
  method RollbackWithError(db: Database, message: string) returns (e: Rejection)
    requires db.inTransaction
    modifies db`tables, db`inTransaction, db`released
    ensures db.tables == old(db.snapshot) && !db.inTransaction
    ensures db.released == old(db.released) + 1
    ensures e == Rejection(ServerError, message)
  {
    db.Rollback();
    db.Release();
    e := Rejection(ServerError, message);
  }

  /** insertCartItems: one order_cart insert per cart item, all issued
      together; it fails when any one of them fails. */
  method InsertCartItems(db: Database, orderId: nat, cartItems: seq<CartItem>, fault: Fault)
    returns (failed: bool)
    modifies db`tables
    ensures failed <==> fault.CartInsertFault? && fault.index < |cartItems|
    ensures db.tables == old(db.tables).(orderCart := old(db.tables.orderCart) +
                                          InsertedRows(orderId, cartItems, FailingItem(fault)))
  {
    failed := false;
    for i := 0 to |cartItems|
      invariant failed <==> fault.CartInsertFault? && fault.index < i
      invariant db.tables == old(db.tables).(orderCart := old(db.tables.orderCart) +
                                               InsertedRows(orderId, cartItems[..i], FailingItem(fault)))
    {
      assert cartItems[..i + 1][..i] == cartItems[..i];
      var err := db.InsertOrderCart(CartRowOf(orderId, cartItems[i]), fault == CartInsertFault(i));
      if err {
        failed := true;
      }
    }
    assert cartItems[..|cartItems|] == cartItems;
  }

  /** The faults that hit createOrder once its transaction has begun. */
  predicate TransactionFails(fault: Fault, n: nat) {
    fault.LookupFault? || fault.InsertHeaderFault? || fault.MissingInsertId? || fault.CommitFault? ||
    (fault.CartInsertFault? && fault.index < n)
  }

  /** createOrder: allocate today's next order number, compute the total,
      insert a pending header and one cart row per item, and commit; any
      failure leaves the tables as they were. */
  method CreateOrder(db: Database, cartItems: seq<CartItem>, userId: string, today: Date, fault: Fault)
    returns (r: Result<Receipt>)
    requires db.Valid()
    modifies db
    ensures db.Valid()
    ensures db.acquired == old(db.acquired) + (if fault == ConnectionFault then 0 else 1)
    ensures r.Ok? <==> !CreateFails(fault, |cartItems|)
    ensures r.Ok? ==>
              var header := OrderHeader(old(db.autoIncrement), NextOrderNo(old(db.tables.orderMaster), today),
                                        userId, today, OrderTotal(cartItems), Pending);
              r.value == Receipt(header.orderId, header.orderNo, today, header.orderTotal) &&
              db.tables == Tables(old(db.tables.orderMaster) + [header],
                                  old(db.tables.orderCart) + CartRows(header.orderId, cartItems))
    ensures r.Err? ==> db.tables == old(db.tables) && r.error == Rejection(ServerError, CreateFailureMessage(fault))
    ensures db.autoIncrement == old(db.autoIncrement) + (if HeaderInserted(fault) then 1 else 0)
    ensures Progresses(old(db.tables.orderMaster), db.tables.orderMaster)
  {
    var connected := db.GetConnection(fault == ConnectionFault);
    if !connected {
      return Err(Rejection(ServerError, "Database connection failed"));
    }
    var begun := db.BeginTransaction(fault == BeginFault);
    if !begun {
      db.Release();
      return Err(Rejection(ServerError, "Transaction initialization failed"));
    }
    r := CreateInTransaction(db, cartItems, userId, today, fault);
  }

  /** The body of createOrder once its transaction is open: look up the day's
      highest order_no and compute the new number and the total, then go on to
      insert; when the lookup fails, roll back. The connection is released on
      every path. */
  method CreateInTransaction(db: Database, cartItems: seq<CartItem>, userId: string, today: Date, fault: Fault)
    returns (r: Result<Receipt>)
    requires db.inTransaction && db.snapshot == db.tables && db.acquired == db.released + 1
    requires 1 <= db.autoIncrement && Consistent(db.tables, db.autoIncrement)
    requires !fault.ConnectionFault? && !fault.BeginFault?
    modifies db`tables, db`autoIncrement, db`inTransaction, db`released
    ensures db.Valid()
    ensures r.Ok? <==> !TransactionFails(fault, |cartItems|)
    ensures r.Ok? ==>
              var header := OrderHeader(old(db.autoIncrement), NextOrderNo(old(db.tables.orderMaster), today),
                                        userId, today, OrderTotal(cartItems), Pending);
              r.value == Receipt(header.orderId, header.orderNo, today, header.orderTotal) &&
              db.tables == Tables(old(db.tables.orderMaster) + [header],
                                  old(db.tables.orderCart) + CartRows(header.orderId, cartItems))
    ensures r.Err? ==> db.tables == old(db.tables) && r.error == Rejection(ServerError, CreateFailureMessage(fault))
    ensures db.autoIncrement == old(db.autoIncrement) + (if HeaderInserted(fault) then 1 else 0)
    ensures Progresses(old(db.tables.orderMaster), db.tables.orderMaster)
  {
    var lookupErr, lastOrder := db.SelectLatestOrderNo(today, fault == LookupFault);
    if lookupErr {
      var e := RollbackWithError(db, "Error fetching latest order_no");
      return Err(e);
    }
    var newOrderNo := if |lastOrder| > 0 then lastOrder[0] + 1 else 1;
    var orderTotal := OrderTotal(cartItems);
    NextOrderNoPositive(db.tables.orderMaster, today);
    r := InsertOrder(db, newOrderNo, orderTotal, cartItems, userId, today, fault);
  }

  /** The header insert of createOrder and what follows it: insert a pending
      order_master row numbered `orderNo`, then the cart rows and the commit;
      a failed insert or a missing insertId rolls back. */
  method InsertOrder(db: Database, orderNo: int, orderTotal: int, cartItems: seq<CartItem>, userId: string,
                     today: Date, fault: Fault)
    returns (r: Result<Receipt>)
    requires db.inTransaction && db.snapshot == db.tables && db.acquired == db.released + 1
    requires 1 <= db.autoIncrement && Consistent(db.tables, db.autoIncrement)
    requires orderNo >= 1
    requires forall i :: 0 <= i < |db.tables.orderMaster| && db.tables.orderMaster[i].orderDate == today ==>
               db.tables.orderMaster[i].orderNo < orderNo
    modifies db`tables, db`autoIncrement, db`inTransaction, db`released
    ensures db.Valid()
    ensures r.Ok? <==> !(fault.InsertHeaderFault? || fault.MissingInsertId? || fault.CommitFault? ||
                         (fault.CartInsertFault? && fault.index < |cartItems|))
    ensures r.Ok? ==>
              var header := OrderHeader(old(db.autoIncrement), orderNo, userId, today, orderTotal, Pending);
              r.value == Receipt(header.orderId, orderNo, today, orderTotal) &&
              db.tables == Tables(old(db.tables.orderMaster) + [header],
                                  old(db.tables.orderCart) + CartRows(header.orderId, cartItems))
    ensures r.Err? ==> db.tables == old(db.tables) && r.error == Rejection(ServerError, CreateFailureMessage(fault))
    ensures db.autoIncrement == old(db.autoIncrement) + (if fault.InsertHeaderFault? then 0 else 1)
    ensures Progresses(old(db.tables.orderMaster), db.tables.orderMaster)
  {
    ghost var master0, cart0, id0 := db.tables.orderMaster, db.tables.orderCart, db.autoIncrement;
    var insertErr, insertId := db.InsertOrderMaster(orderNo, userId, today, orderTotal, Pending,
                                                    fault == InsertHeaderFault, fault == MissingInsertId);
    ConsistentUnderLargerBound(db.snapshot, id0, db.autoIncrement);
    if insertErr || insertId == 0 {
      var e := RollbackWithError(db, "Error inserting into order_master");
      return Err(e);
    }
    var failure := InsertCartAndCommit(db, insertId, cartItems, fault);
    if failure.Some? {
      return Err(failure.value);
    }
    ghost var header := OrderHeader(id0, orderNo, userId, today, orderTotal, Pending);
    CreatedTablesConsistent(Tables(master0, cart0), id0, header, cartItems);
    ProgressesByAppend(master0, [header]);
    r := Ok(Receipt(insertId, orderNo, today, orderTotal));
  }

  /** The tail of createOrder once the header is in: insert the cart rows and
      commit, then release; when an insert or the commit fails, roll back
      (which also releases) and give the rejection. */
  method InsertCartAndCommit(db: Database, orderId: nat, cartItems: seq<CartItem>, fault: Fault)
    returns (failure: Option<Rejection>)
    requires db.inTransaction
    modifies db`tables, db`inTransaction, db`released
    ensures !db.inTransaction && db.released == old(db.released) + 1
    ensures failure.None? <==> !(fault.CartInsertFault? && fault.index < |cartItems|) && !fault.CommitFault?
    ensures failure.None? ==>
              db.tables == old(db.tables).(orderCart := old(db.tables.orderCart) + CartRows(orderId, cartItems))
    ensures failure.Some? ==>
              db.tables == old(db.snapshot) && failure.value == Rejection(ServerError, CreateFailureMessage(fault))
  {
    var cartFailed := InsertCartItems(db, orderId, cartItems, fault);
    if cartFailed {
      var e := RollbackWithError(db, "Error inserting into order_cart");
      return Some(e);
    }
    InsertedRowsWithoutFailure(orderId, cartItems, FailingItem(fault));
    var committed := db.Commit(fault == CommitFault);
    if !committed {
      var e := RollbackWithError(db, "Transaction commit failed");
      return Some(e);
    }
    db.Release();
    failure := None;
  }

  /** The shared read, guard, update, commit of markOrderAsDone and
      markOrderAsClose: move order `orderId` from `from` to `to`, answering
      with the row read before the update. */
  method Transition(db: Database, orderId: nat, fault: Fault, from: Status, to: Status,
                    lookupMessage: string, guardMessage: string)
    returns (r: Result<OrderHeader>)
    requires db.Valid()
    requires Rank(to) == Rank(from) + 1
    modifies db
    ensures db.Valid()
    ensures db.acquired == old(db.acquired) + (if fault == ConnectionFault then 0 else 1)
    ensures db.autoIncrement == old(db.autoIncrement)
    ensures var found := FindOrder(old(db.tables.orderMaster), orderId);
            r.Ok? <==> !TransitionFails(fault) && found.Some? && found.value.status == from
    ensures r.Ok? ==> r.value == FindOrder(old(db.tables.orderMaster), orderId).value &&
                      db.tables == old(db.tables).(orderMaster := SetStatus(old(db.tables.orderMaster), orderId, to))
    ensures r.Err? ==>
              db.tables == old(db.tables) &&
              r.error == Rejection(ServerError, TransitionFailureMessage(FindOrder(old(db.tables.orderMaster), orderId),
                                                                         fault, from, lookupMessage, guardMessage))
    ensures Progresses(old(db.tables.orderMaster), db.tables.orderMaster)
  {
    var connected := db.GetConnection(fault == ConnectionFault);
    if !connected {
      return Err(Rejection(ServerError, "Database connection failed"));
    }
    var begun := db.BeginTransaction(fault == BeginFault);
    if !begun {
      db.Release();
      return Err(Rejection(ServerError, "Transaction initialization failed"));
    }
    r := TransitionInTransaction(db, orderId, fault, from, to, lookupMessage, guardMessage);
  }

  /** The transition once its transaction is open: read the order, check its
      status, then update and commit; every failure rolls back. */
  method TransitionInTransaction(db: Database, orderId: nat, fault: Fault, from: Status, to: Status,
                                 lookupMessage: string, guardMessage: string)
    returns (r: Result<OrderHeader>)
    requires db.inTransaction && db.snapshot == db.tables && db.acquired == db.released + 1
    requires 1 <= db.autoIncrement && Consistent(db.tables, db.autoIncrement)
    requires !fault.ConnectionFault? && !fault.BeginFault?
    requires Rank(to) == Rank(from) + 1
    modifies db`tables, db`inTransaction, db`released
    ensures db.Valid()
    ensures var found := FindOrder(old(db.tables.orderMaster), orderId);
            r.Ok? <==> !TransitionFails(fault) && found.Some? && found.value.status == from
    ensures r.Ok? ==> r.value == FindOrder(old(db.tables.orderMaster), orderId).value &&
                      db.tables == old(db.tables).(orderMaster := SetStatus(old(db.tables.orderMaster), orderId, to))
    ensures r.Err? ==>
              db.tables == old(db.tables) &&
              r.error == Rejection(ServerError, TransitionFailureMessage(FindOrder(old(db.tables.orderMaster), orderId),
                                                                         fault, from, lookupMessage, guardMessage))
    ensures Progresses(old(db.tables.orderMaster), db.tables.orderMaster)
  {
    var lookupErr, found := db.SelectOrder(orderId, fault == LookupFault);
    if lookupErr {
      var e := RollbackWithError(db, lookupMessage);
      return Err(e);
    }
    ghost var t0 := db.tables;
    r := CheckAndUpdate(db, orderId, found, fault, from, to, guardMessage);
    if r.Ok? {
      StatusUpdateConsistent(t0, db.autoIncrement, orderId, to);
    }
  }

  /** What the transition does with the row its SELECT read: reject when
      there is none or its status is not `from`, otherwise update and commit;
      every failure rolls back. */
  method CheckAndUpdate(db: Database, orderId: nat, found: Option<OrderHeader>, fault: Fault,
                        from: Status, to: Status, guardMessage: string)
    returns (r: Result<OrderHeader>)
    requires db.inTransaction && UniqueIds(db.tables.orderMaster)
    requires found == FindOrder(db.tables.orderMaster, orderId)
    requires !fault.ConnectionFault? && !fault.BeginFault? && !fault.LookupFault?
    requires Rank(to) == Rank(from) + 1
    modifies db`tables, db`inTransaction, db`released
    ensures !db.inTransaction && db.released == old(db.released) + 1
    ensures r.Ok? <==> !(fault.UpdateFault? || fault.ZeroAffectedRows? || fault.CommitFault?) &&
                       found.Some? && found.value.status == from
    ensures r.Ok? ==> r.value == found.value &&
                      db.tables == old(db.tables).(orderMaster := SetStatus(old(db.tables.orderMaster), orderId, to))
    ensures r.Err? ==>
              db.tables == old(db.snapshot) &&
              r.error == Rejection(ServerError, TransitionFailureMessage(found, fault, from, "", guardMessage))
    ensures r.Ok? ==> Progresses(old(db.tables.orderMaster), db.tables.orderMaster)
  {
    if found.None? {
      var e := RollbackWithError(db, "Order not found");
      return Err(e);
    }
    if found.value.status != from {
      var e := RollbackWithError(db, guardMessage);
      return Err(e);
    }
    GuardedUpdateProgresses(db.tables.orderMaster, orderId, from, to);
    var failure := UpdateAndCommit(db, orderId, to, fault);
    if failure.Some? {
      return Err(failure.value);
    }
    r := Ok(found.value);
  }

  /** The UPDATE and the commit of a transition: a failed or empty update,
      or a failed commit, rolls back; the connection is released either way. */
  method UpdateAndCommit(db: Database, orderId: nat, to: Status, fault: Fault) returns (failure: Option<Rejection>)
    requires db.inTransaction
    requires FindOrder(db.tables.orderMaster, orderId).Some?
    modifies db`tables, db`inTransaction, db`released
    ensures !db.inTransaction && db.released == old(db.released) + 1
    ensures failure.None? <==> !(fault.UpdateFault? || fault.ZeroAffectedRows? || fault.CommitFault?)
    ensures failure.None? ==>
              db.tables == old(db.tables).(orderMaster := SetStatus(old(db.tables.orderMaster), orderId, to))
    ensures failure.Some? ==>
              db.tables == old(db.snapshot) &&
              failure.value == Rejection(ServerError, if fault.CommitFault? then "Transaction commit failed"
                                                      else "Failed to update order status")
  {
    var updateErr, affectedRows := db.UpdateStatus(orderId, to, fault == UpdateFault, fault == ZeroAffectedRows);
    if updateErr || affectedRows == 0 {
      var e := RollbackWithError(db, "Failed to update order status");
      return Some(e);
    }
    var committed := db.Commit(fault == CommitFault);
    if !committed {
      var e := RollbackWithError(db, "Transaction commit failed");
      return Some(e);
    }
    db.Release();
    failure := None;
  }

  /** markOrderAsDone: pending -> done. */
  method MarkOrderAsDone(db: Database, orderId: nat, fault: Fault) returns (r: Result<()>)
    requires db.Valid()
    modifies db
    ensures db.Valid()
    ensures db.acquired == old(db.acquired) + (if fault == ConnectionFault then 0 else 1)
    ensures db.autoIncrement == old(db.autoIncrement)
    ensures var found := FindOrder(old(db.tables.orderMaster), orderId);
            r.Ok? <==> !TransitionFails(fault) && found.Some? && found.value.status == Pending
    ensures r.Ok? ==> db.tables == old(db.tables).(orderMaster := SetStatus(old(db.tables.orderMaster), orderId, Done))
    ensures r.Err? ==>
              db.tables == old(db.tables) &&
              r.error == Rejection(ServerError, TransitionFailureMessage(FindOrder(old(db.tables.orderMaster), orderId),
                                                                         fault, Pending, "Error fetching order status",
                                                                         "Order is not pending"))
    ensures Progresses(old(db.tables.orderMaster), db.tables.orderMaster)
  {
    var t := Transition(db, orderId, fault, Pending, Done, "Error fetching order status", "Order is not pending");
    r := if t.Ok? then Ok(()) else Err(t.error);
  }

  /** markOrderAsClose: done -> completed, answering with the order's id and
      the order_no read before the update. */
  method MarkOrderAsClose(db: Database, orderId: nat, fault: Fault) returns (r: Result<Closed>)
    requires db.Valid()
    modifies db
    ensures db.Valid()
    ensures db.acquired == old(db.acquired) + (if fault == ConnectionFault then 0 else 1)
    ensures db.autoIncrement == old(db.autoIncrement)
    ensures var found := FindOrder(old(db.tables.orderMaster), orderId);
            r.Ok? <==> !TransitionFails(fault) && found.Some? && found.value.status == Done
    ensures r.Ok? ==>
              r.value == Closed(orderId, FindOrder(old(db.tables.orderMaster), orderId).value.orderNo) &&
              db.tables == old(db.tables).(orderMaster := SetStatus(old(db.tables.orderMaster), orderId, Completed))
    ensures r.Err? ==>
              db.tables == old(db.tables) &&
              r.error == Rejection(ServerError, TransitionFailureMessage(FindOrder(old(db.tables.orderMaster), orderId),
                                                                         fault, Done, "Error fetching order details",
                                                                         "Order is not done"))
    ensures Progresses(old(db.tables.orderMaster), db.tables.orderMaster)
  {
    var t := Transition(db, orderId, fault, Done, Completed, "Error fetching order details", "Order is not done");
    r := if t.Ok? then Ok(Closed(orderId, t.value.orderNo)) else Err(t.error);
  }
}
