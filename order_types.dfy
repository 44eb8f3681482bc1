/** Values shared by the order controller: the rows of the two tables it writes
    (order_master and order_cart), the cart it is given, what it resolves and
    rejects with, and the driver failures it must survive. */
module OrderTypes {

  /** A calendar day as the controller formats it ("YYYY-MM-DD"). */
  type Date = string

  datatype Option<T> = None | Some(value: T)

  /** The three values the status column takes. */
  datatype Status = Pending | Done | Completed

  /** One order_master row. `orderTotal` is in hundredths of the currency unit. */
  datatype OrderHeader = OrderHeader(
    orderId: nat,
    orderNo: int,
    userId: string,
    orderDate: Date,
    orderTotal: int,
    status: Status)

  /** One order_cart row. `price` is copied from the cart item unchanged
      (thousandths of the currency unit). */
  datatype CartRow = CartRow(orderId: nat, productId: int, quantity: int, price: int)

  /** One element of the cart the caller sends: `product_id`, `price` (in
      thousandths of the currency unit) and `count`. */
  datatype CartItem = CartItem(productId: int, price: int, count: int)

  /** What a successful createOrder resolves with (besides code 200). */
  datatype Receipt = Receipt(orderId: nat, orderNo: int, orderDate: Date, orderTotal: int)

  /** What a successful markOrderAsClose resolves with (besides code 200). */
  datatype Closed = Closed(orderId: nat, orderNo: int)

  /** The object every failure path rejects with: a numeric code and a message. */
  datatype Rejection = Rejection(code: int, message: string)

  datatype Result<T> = Ok(value: T) | Err(error: Rejection)

  /** The one driver call that fails during a controller call, if any.
      `CartInsertFault(i)` makes the insert of cart item `i` fail;
      `MissingInsertId` makes the header insert succeed without an insertId;
      `ZeroAffectedRows` makes the status UPDATE report that no row changed. */
  datatype Fault =
    | NoFault
    | ConnectionFault
    | BeginFault
    | LookupFault
    | InsertHeaderFault
    | MissingInsertId
    | CartInsertFault(index: nat)
    | UpdateFault
    | ZeroAffectedRows
    | CommitFault

  /** Every rejection of the live controller carries this code. */
  const ServerError := 500
}
