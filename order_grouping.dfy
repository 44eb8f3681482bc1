/** The grouping the pending and done listings apply to their query rows: each
    row is one order header joined with one cart row and its product name, and
    the reduce folds them into one order per order_id, in the order the ids are
    first seen, each carrying its cart items in row order. */
module OrderGrouping {
  import opened OrderTypes

  /** One row of the listing query: order_master x order_cart x product name. */
  datatype JoinedRow = JoinedRow(
    orderId: nat,
    orderNo: int,
    userId: string,
    orderDate: Date,
    orderTotal: int,
    productId: int,
    productName: string,
    quantity: int,
    price: int)

  /** One element of an order's `cartItems`. */
  datatype LineItem = LineItem(productId: int, quantity: int, price: int, productName: string)

  /** One order of the listing: its header fields and its cart items. */
  datatype GroupedOrder = GroupedOrder(
    orderId: nat,
    orderNo: int,
    userId: string,
    orderDate: Date,
    orderTotal: int,
    cartItems: seq<LineItem>)

  function ItemOf(row: JoinedRow): LineItem {
    LineItem(row.productId, row.quantity, row.price, row.productName)
  }

  /** The order object the reduce creates when it meets a new order_id. */
  function NewGroup(row: JoinedRow): GroupedOrder {
    GroupedOrder(row.orderId, row.orderNo, row.userId, row.orderDate, row.orderTotal, [])
  }

  /** `acc.find(o => o.order_id === orderId)`, as a position: the first group
      with this id, or -1. It is the search OrderStatus.OrderIndex makes over
      order_master rows, here over the accumulator's groups. */
  function FindGroup(acc: seq<GroupedOrder>, orderId: nat): (k: int)
    ensures -1 <= k < |acc|
    ensures k >= 0 ==> acc[k].orderId == orderId
    ensures forall j :: 0 <= j < |acc| && (k < 0 || j < k) ==> acc[j].orderId != orderId
  {
    if acc == [] then -1
    else if acc[0].orderId == orderId then 0
    else
      var k := FindGroup(acc[1..], orderId);
      assert forall j :: 1 <= j < |acc| ==> acc[1..][j - 1] == acc[j];
      if k < 0 then -1 else k + 1
  }

  /** One step of the reduce: find the row's order, create and push it if it
      is new, then push the row's item onto that order's cartItems. */
  function Accumulate(acc: seq<GroupedOrder>, row: JoinedRow): seq<GroupedOrder> {
    var k := FindGroup(acc, row.orderId);
    var grown := if k < 0 then acc + [NewGroup(row)] else acc;
    var at := if k < 0 then |acc| else k;
    grown[at := grown[at].(cartItems := grown[at].cartItems + [ItemOf(row)])]
  }

  /** The whole reduce, from an empty accumulator, over the rows in order. */
  function GroupByOrder(rows: seq<JoinedRow>): seq<GroupedOrder> {
    if rows == [] then []
    else Accumulate(GroupByOrder(rows[..|rows| - 1]), rows[|rows| - 1])
  }

  // ---------------------------------------------------------------------------
  // An independent description of the result: which ids, in which order, and
  // what each group holds.

  /** The distinct order_ids of the rows, each where it first occurs. */
  function SeenIds(rows: seq<JoinedRow>): seq<nat> {
    if rows == [] then []
    else
      var ids := SeenIds(rows[..|rows| - 1]);
      var id := rows[|rows| - 1].orderId;
      if id in ids then ids else ids + [id]
  }

  /** The position of the first row with this order_id, or -1. */
  function FirstRow(rows: seq<JoinedRow>, orderId: nat): (k: int)
    ensures -1 <= k < |rows|
    ensures k >= 0 ==> rows[k].orderId == orderId
    ensures forall j :: 0 <= j < |rows| && (k < 0 || j < k) ==> rows[j].orderId != orderId
  {
    if rows == [] then -1
    else
      var k := FirstRow(rows[..|rows| - 1], orderId);
      if k >= 0 then k
      else if rows[|rows| - 1].orderId == orderId then |rows| - 1
      else -1
  }

  /** The items of the rows with this order_id, in row order. */
  function ItemsFor(rows: seq<JoinedRow>, orderId: nat): seq<LineItem> {
    if rows == [] then []
    else
      ItemsFor(rows[..|rows| - 1], orderId) +
      (if rows[|rows| - 1].orderId == orderId then [ItemOf(rows[|rows| - 1])] else [])
  }

  /** The group an order_id should end up as: header fields from its first
      row, and the items of all its rows. */
  function Expected(rows: seq<JoinedRow>, orderId: nat): GroupedOrder
    requires FirstRow(rows, orderId) >= 0
  {
    NewGroup(rows[FirstRow(rows, orderId)]).(cartItems := ItemsFor(rows, orderId))
  }

  /** `out` holds one group per distinct order_id, in first-seen order, each
      equal to what that id should become. */
  ghost predicate IsGrouping(rows: seq<JoinedRow>, out: seq<GroupedOrder>) {
    var ids := SeenIds(rows);
    |out| == |ids| &&
    forall i :: 0 <= i < |out| ==> FirstRow(rows, ids[i]) >= 0 && out[i] == Expected(rows, ids[i])
  }

  /** SeenIds lists exactly the order_ids that occur in the rows. */
  lemma {:induction false} SeenIdsCover(rows: seq<JoinedRow>)
    ensures forall id :: id in SeenIds(rows) <==> FirstRow(rows, id) >= 0
  {
    if rows != [] {
      var prefix := rows[..|rows| - 1];
      SeenIdsCover(prefix);
      var id := rows[|rows| - 1].orderId;
      forall x ensures FirstRow(rows, x) >= 0 <==> FirstRow(prefix, x) >= 0 || x == id {
      }
    }
  }

  /** SeenIds lists each order_id once, ordered by where each first occurs. */
  lemma {:induction false} SeenIdsAreFirstSeen(rows: seq<JoinedRow>)
    ensures forall i, j :: 0 <= i < j < |SeenIds(rows)| ==> SeenIds(rows)[i] != SeenIds(rows)[j]
    ensures forall i, j :: 0 <= i < j < |SeenIds(rows)| ==>
              FirstRow(rows, SeenIds(rows)[i]) < FirstRow(rows, SeenIds(rows)[j])
  {
    if rows != [] {
      var prefix := rows[..|rows| - 1];
      SeenIdsAreFirstSeen(prefix);
      SeenIdsCover(prefix);
      var id := rows[|rows| - 1].orderId;
      forall x | FirstRow(prefix, x) >= 0 ensures FirstRow(rows, x) == FirstRow(prefix, x) {
      }
      if id !in SeenIds(prefix) {
        assert FirstRow(rows, id) == |rows| - 1;
      }
    }
  }

  /** An id with no row has no items. */
  lemma {:induction false} NoRowsNoItems(rows: seq<JoinedRow>, orderId: nat)
    requires FirstRow(rows, orderId) < 0
    ensures ItemsFor(rows, orderId) == []
  {
    if rows != [] {
      NoRowsNoItems(rows[..|rows| - 1], orderId);
    }
  }

  /** Appending a row moves no id's first row and adds the row's item to its
      own id's items only. */
  lemma AppendRowKeepsFirstRows(rows: seq<JoinedRow>, row: JoinedRow)
    ensures forall x :: FirstRow(rows, x) >= 0 ==> FirstRow(rows + [row], x) == FirstRow(rows, x)
    ensures forall x :: ItemsFor(rows + [row], x) == ItemsFor(rows, x) + (if x == row.orderId then [ItemOf(row)] else [])
  {
    assert (rows + [row])[..|rows|] == rows;
  }

  /** Another id's group is what it was before the row came. */
  lemma ExpectedOfOtherId(rows: seq<JoinedRow>, row: JoinedRow, x: nat)
    requires FirstRow(rows, x) >= 0 && x != row.orderId
    ensures FirstRow(rows + [row], x) >= 0 && Expected(rows + [row], x) == Expected(rows, x)
  {
    assert (rows + [row])[..|rows|] == rows;
  }

  /** The step for a row whose order_id the accumulator has not seen: a new
      group goes at the end. */
  lemma AccumulateNewId(rows: seq<JoinedRow>, acc: seq<GroupedOrder>, row: JoinedRow)
    requires IsGrouping(rows, acc)
    requires FindGroup(acc, row.orderId) < 0
    ensures IsGrouping(rows + [row], Accumulate(acc, row))
  {
    var rows' := rows + [row];
    var id := row.orderId;
    var ids := SeenIds(rows);
    assert forall i :: 0 <= i < |ids| ==> ids[i] == acc[i].orderId;
    assert id !in ids;
    SeenIdsCover(rows);
    NoRowsNoItems(rows, id);
    assert rows'[..|rows'| - 1] == rows;
    assert SeenIds(rows') == ids + [id];
    assert FirstRow(rows', id) == |rows|;
    assert ItemsFor(rows', id) == [] + [ItemOf(row)];
    AccumulateOpens(acc, row);
    var out := Accumulate(acc, row);
    forall i | 0 <= i < |acc| ensures FirstRow(rows', ids[i]) >= 0 && out[i] == Expected(rows', ids[i]) {
      ExpectedOfOtherId(rows, row, ids[i]);
    }
  }

  /** The step for a row whose order_id has a group already: the item joins
      that group and nothing else changes. */
  lemma AccumulateSeenId(rows: seq<JoinedRow>, acc: seq<GroupedOrder>, row: JoinedRow)
    requires IsGrouping(rows, acc)
    requires FindGroup(acc, row.orderId) >= 0
    ensures IsGrouping(rows + [row], Accumulate(acc, row))
  {
    var rows' := rows + [row];
    var id := row.orderId;
    var ids := SeenIds(rows);
    var k := FindGroup(acc, id);
    var out := Accumulate(acc, row);
    assert rows'[..|rows'| - 1] == rows;
    SeenIdsAreFirstSeen(rows);
    AppendRowKeepsFirstRows(rows, row);
    assert ids[k] == id;
    assert SeenIds(rows') == ids;
    forall i | 0 <= i < |acc| ensures out[i] == Expected(rows', ids[i]) {
      if i != k {
        assert ids[i] != ids[k];
      }
    }
  }

  /** The reduce groups by identity, not by adjacency: its result is exactly
      one group per distinct order_id, in first-seen order, with the header
      of that id's first row and the items of all its rows in row order. */
  lemma {:induction false} GroupByOrderIsGrouping(rows: seq<JoinedRow>)
    ensures IsGrouping(rows, GroupByOrder(rows))
  {
    if rows != [] {
      var prefix := rows[..|rows| - 1];
      GroupByOrderIsGrouping(prefix);
      var acc, row := GroupByOrder(prefix), rows[|rows| - 1];
      if FindGroup(acc, row.orderId) < 0 {
        AccumulateNewId(prefix, acc, row);
      } else {
        AccumulateSeenId(prefix, acc, row);
      }
      assert prefix + [rows[|rows| - 1]] == rows;
    }
  }

  /** One more row is one more step of the reduce. */
  lemma GroupByOrderSnoc(rows: seq<JoinedRow>, row: JoinedRow)
    ensures GroupByOrder(rows + [row]) == Accumulate(GroupByOrder(rows), row)
  {
    assert (rows + [row])[..|rows|] == rows;
  }

  /** A row of an id not yet grouped opens a new group holding its item. */
  lemma AccumulateOpens(acc: seq<GroupedOrder>, row: JoinedRow)
    requires forall j :: 0 <= j < |acc| ==> acc[j].orderId != row.orderId
    ensures Accumulate(acc, row) == acc + [NewGroup(row).(cartItems := [ItemOf(row)])]
  {
    assert NewGroup(row).cartItems + [ItemOf(row)] == [ItemOf(row)];
  }

  /** A row of an id grouped at position k adds its item to that group. */
  lemma AccumulateJoins(acc: seq<GroupedOrder>, row: JoinedRow, k: nat)
    requires k < |acc| && acc[k].orderId == row.orderId
    requires forall j :: 0 <= j < k ==> acc[j].orderId != row.orderId
    ensures Accumulate(acc, row) == acc[k := acc[k].(cartItems := acc[k].cartItems + [ItemOf(row)])]
  {
  }

  /** Rows of orders 1, 2, 1 group into order 1 with both its items, then
      order 2: grouping is by id, not by adjacency. */
  lemma InterleavedRowsGroupById(a: JoinedRow, b: JoinedRow, c: JoinedRow)
    requires a.orderId == 1 && b.orderId == 2 && c.orderId == 1
    ensures GroupByOrder([a, b, c]) ==
              [NewGroup(a).(cartItems := [ItemOf(a), ItemOf(c)]), NewGroup(b).(cartItems := [ItemOf(b)])]
  {
    var g0: seq<GroupedOrder> := [];
    assert GroupByOrder([]) == g0;
    var g1 := g0 + [NewGroup(a).(cartItems := [ItemOf(a)])];
    var g2 := g1 + [NewGroup(b).(cartItems := [ItemOf(b)])];
    GroupByOrderSnoc([], a);
    assert [] + [a] == [a];
    AccumulateOpens(g0, a);
    GroupByOrderSnoc([a], b);
    assert [a] + [b] == [a, b];
    AccumulateOpens(g1, b);
    GroupByOrderSnoc([a, b], c);
    assert [a, b] + [c] == [a, b, c];
    AccumulateJoins(g2, c, 0);
    assert [ItemOf(a)] + [ItemOf(c)] == [ItemOf(a), ItemOf(c)];
  }

  // ---------------------------------------------------------------------------
  // Every row contributes exactly one item.

  /** The number of cart items over all groups. */
  function TotalItems(orders: seq<GroupedOrder>): nat {
    if orders == [] then 0
    else TotalItems(orders[..|orders| - 1]) + |orders[|orders| - 1].cartItems|
  }

  lemma {:induction false} TotalItemsUpdate(orders: seq<GroupedOrder>, k: nat, g: GroupedOrder)
    requires k < |orders|
    ensures TotalItems(orders[k := g]) == TotalItems(orders) - |orders[k].cartItems| + |g.cartItems|
  {
    var n := |orders|;
    var updated := orders[k := g];
    assert updated[..n - 1] == if k == n - 1 then orders[..n - 1] else orders[..n - 1][k := g];
    if k < n - 1 {
      TotalItemsUpdate(orders[..n - 1], k, g);
    }
  }

  /** As many items come out as rows go in. */
  lemma {:induction false} GroupedItemCount(rows: seq<JoinedRow>)
    ensures TotalItems(GroupByOrder(rows)) == |rows|
  {
    if rows != [] {
      var prefix := rows[..|rows| - 1];
      var row := rows[|rows| - 1];
      var acc := GroupByOrder(prefix);
      GroupedItemCount(prefix);
      var k := FindGroup(acc, row.orderId);
      var grown := if k < 0 then acc + [NewGroup(row)] else acc;
      var at := if k < 0 then |acc| else k;
      if k < 0 {
        assert grown[..|grown| - 1] == acc;
      }
      TotalItemsUpdate(grown, at, grown[at].(cartItems := grown[at].cartItems + [ItemOf(row)]));
    }
  }

  // ---------------------------------------------------------------------------
  // The reduce as the listing code runs it: a loop over the result rows that
  // searches the accumulator and pushes in place.

  method GroupRows(rows: array<JoinedRow>) returns (orders: seq<GroupedOrder>)
    ensures orders == GroupByOrder(rows[..])
  {
    orders := [];
    for i := 0 to rows.Length
      invariant orders == GroupByOrder(rows[..i])
    {
      var row := rows[i];
      var j := 0;
      while j < |orders| && orders[j].orderId != row.orderId
        invariant 0 <= j <= |orders|
        invariant forall m :: 0 <= m < j ==> orders[m].orderId != row.orderId
      {
        j := j + 1;
      }
      assert FindGroup(orders, row.orderId) == if j == |orders| then -1 else j;
      if j == |orders| {
        orders := orders + [NewGroup(row)];
      }
      orders := orders[j := orders[j].(cartItems := orders[j].cartItems + [ItemOf(row)])];
      assert rows[..i + 1][..i] == rows[..i];
    }
    assert rows[..rows.Length] == rows[..];
  }
}
