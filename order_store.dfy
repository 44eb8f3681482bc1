/** The storage the controller talks to through its pooled connection: the
    order_master and order_cart tables, the AUTO_INCREMENT counter that hands
    out order ids, one transaction with the snapshot it rolls back to, and a
    count of the connections taken from and given back to the pool. Each
    driver call takes a `fail` flag saying whether the call errs. */
module OrderStore {
  import opened OrderTypes
  import opened OrderNumber
  import opened OrderStatus

  /** The contents of the two tables. */
  datatype Tables = Tables(orderMaster: seq<OrderHeader>, orderCart: seq<CartRow>)

  /** Some order_master row has this order_id. */
  ghost predicate HasOrder(headers: seq<OrderHeader>, orderId: nat) {
    exists i :: 0 <= i < |headers| && headers[i].orderId == orderId
  }

  /** What the schema and the controller keep true of the tables: order_id is
      a key below the next AUTO_INCREMENT value, order numbers start at 1 and
      are unique within a day, and every cart row belongs to an order. */
  ghost predicate Consistent(t: Tables, nextId: nat) {
    UniqueIds(t.orderMaster) &&
    DayNumbersUnique(t.orderMaster) &&
    (forall i :: 0 <= i < |t.orderMaster| ==> 1 <= t.orderMaster[i].orderId < nextId) &&
    (forall i :: 0 <= i < |t.orderMaster| ==> t.orderMaster[i].orderNo >= 1) &&
    (forall k :: 0 <= k < |t.orderCart| ==> HasOrder(t.orderMaster, t.orderCart[k].orderId))
  }

  class Database {
    var tables: Tables
    var autoIncrement: nat
    var inTransaction: bool
    var snapshot: Tables
    var acquired: nat
    var released: nat

    /** Between two controller calls: no transaction is open, every connection
        taken from the pool has been given back, and the tables are consistent. */
    ghost predicate Valid()
      reads this
    {
      !inTransaction && acquired == released && 1 <= autoIncrement && Consistent(tables, autoIncrement)
    }

    constructor ()
      ensures Valid()
      ensures tables == Tables([], []) && autoIncrement == 1 && acquired == 0
    {
      tables := Tables([], []);
      autoIncrement := 1;
      inTransaction := false;
      snapshot := Tables([], []);
      acquired, released := 0, 0;
    }

    /** pool.getConnection */
    method GetConnection(fail: bool) returns (ok: bool)
      modifies this`acquired
      ensures ok == !fail
      ensures acquired == old(acquired) + (if ok then 1 else 0)
    {
      ok := !fail;
      if ok {
        acquired := acquired + 1;
      }
    }

    /** connection.release */
    method Release()
      modifies this`released
      ensures released == old(released) + 1
    {
      released := released + 1;
    }

    /** connection.beginTransaction: on success the current tables become the
        snapshot a rollback returns to. */
    method BeginTransaction(fail: bool) returns (ok: bool)
      modifies this`inTransaction, this`snapshot
      ensures ok == !fail
      ensures ok ==> inTransaction && snapshot == tables
      ensures !ok ==> inTransaction == old(inTransaction) && snapshot == old(snapshot)
    {
      ok := !fail;
      if ok {
        inTransaction := true;
        snapshot := tables;
      }
    }

    /** connection.commit: the transaction's writes stay. */
    method Commit(fail: bool) returns (ok: bool)
      modifies this`inTransaction
      ensures ok == !fail
      ensures inTransaction == (old(inTransaction) && !ok)
    {
      ok := !fail;
      if ok {
        inTransaction := false;
      }
    }

    /** connection.rollback: the tables return to the snapshot. AUTO_INCREMENT
        values handed out inside the transaction are not given back. */
    method Rollback()
      requires inTransaction
      modifies this`tables, this`inTransaction
      ensures tables == snapshot && !inTransaction
    {
      tables := snapshot;
      inTransaction := false;
    }

    /** `SELECT order_no FROM order_master WHERE order_date = ?
        ORDER BY order_no DESC LIMIT 1` */
    method SelectLatestOrderNo(day: Date, fail: bool) returns (err: bool, lastOrder: seq<int>)
      ensures err == fail
      ensures !err ==> lastOrder == LatestOrderRows(tables.orderMaster, day)
    {
      err := fail;
      lastOrder := if err then [] else LatestOrderRows(tables.orderMaster, day);
    }

    /** `INSERT INTO order_master (...) VALUES (...)`: the row gets the next
        AUTO_INCREMENT value as its order_id. With `noId` the row is stored but
        the driver reports no insertId. */
    method InsertOrderMaster(orderNo: int, userId: string, day: Date, total: int, status: Status,
                             fail: bool, noId: bool)
      returns (err: bool, insertId: nat)
      modifies this`tables, this`autoIncrement
      ensures err == fail
      ensures err ==> tables == old(tables) && autoIncrement == old(autoIncrement)
      ensures !err ==> autoIncrement == old(autoIncrement) + 1
      ensures !err ==> tables == old(tables).(orderMaster := old(tables.orderMaster) +
                                   [OrderHeader(old(autoIncrement), orderNo, userId, day, total, status)])
      ensures insertId == if err || noId then 0 else old(autoIncrement)
    {
      err := fail;
      insertId := 0;
      if !err {
        var row := OrderHeader(autoIncrement, orderNo, userId, day, total, status);
        tables := tables.(orderMaster := tables.orderMaster + [row]);
        if !noId {
          insertId := autoIncrement;
        }
        autoIncrement := autoIncrement + 1;
      }
    }

    /** `INSERT INTO order_cart (order_id, product_id, quantity, price) VALUES (...)` */
    method InsertOrderCart(row: CartRow, fail: bool) returns (err: bool)
      modifies this`tables
      ensures err == fail
      ensures tables == if err then old(tables)
                        else old(tables).(orderCart := old(tables.orderCart) + [row])
    {
      err := fail;
      if !err {
        tables := tables.(orderCart := tables.orderCart + [row]);
      }
    }

    /** `SELECT order_no, status FROM order_master WHERE order_id = ?`, first row. */
    method SelectOrder(orderId: nat, fail: bool) returns (err: bool, found: Option<OrderHeader>)
      ensures err == fail
      ensures !err ==> found == FindOrder(tables.orderMaster, orderId)
    {
      err := fail;
      found := if err then None else FindOrder(tables.orderMaster, orderId);
    }

    /** `UPDATE order_master SET status = ? WHERE order_id = ?`. With `noRows`
        the driver reports that no row was changed, and none is. */
    method UpdateStatus(orderId: nat, s: Status, fail: bool, noRows: bool)
      returns (err: bool, affectedRows: nat)
      modifies this`tables
      ensures err == fail
      ensures err || noRows ==> tables == old(tables) && affectedRows == 0
      ensures !err && !noRows ==>
                tables == old(tables).(orderMaster := SetStatus(old(tables.orderMaster), orderId, s)) &&
                affectedRows == MatchingRows(old(tables.orderMaster), orderId)
    {
      err := fail;
      affectedRows := 0;
      if !err && !noRows {
        affectedRows := MatchingRows(tables.orderMaster, orderId);
        tables := tables.(orderMaster := SetStatus(tables.orderMaster, orderId, s));
      }
    }
  }
}
