/** The status column as a state machine: pending -> done -> completed. The
    functions here are what the controller's SELECT and UPDATE statements do to
    order_master; the lemmas say that the guarded updates only ever advance an
    order by one step. */
module OrderStatus {
  import opened OrderTypes

  /** Position of a status in the lifecycle. */
  function Rank(s: Status): nat {
    match s
    case Pending => 0
    case Done => 1
    case Completed => 2
  }

  /** The position of the first order_master row with this order_id, or -1.
      The listing reduce's `acc.find` (OrderGrouping.FindGroup) is the same
      search over a different record type; the two are kept apart because
      one stands for a SELECT against the table and the other for an
      in-memory search of the accumulator. */
  function OrderIndex(headers: seq<OrderHeader>, orderId: nat): (k: int)
    ensures -1 <= k < |headers|
    ensures k >= 0 ==> headers[k].orderId == orderId
    ensures forall j :: 0 <= j < |headers| && (k < 0 || j < k) ==> headers[j].orderId != orderId
  {
    if headers == [] then -1
    else if headers[0].orderId == orderId then 0
    else
      var k := OrderIndex(headers[1..], orderId);
      assert forall j :: 1 <= j < |headers| ==> headers[1..][j - 1] == headers[j];
      if k < 0 then -1 else k + 1
  }

  /** The row `SELECT ... FROM order_master WHERE order_id = ?` puts first
      (`results[0]`), or None when the result is empty. */
  function FindOrder(headers: seq<OrderHeader>, orderId: nat): (r: Option<OrderHeader>)
    ensures r.Some? ==> r.value.orderId == orderId && r.value in headers
    ensures r.None? ==> forall i :: 0 <= i < |headers| ==> headers[i].orderId != orderId
  {
    var k := OrderIndex(headers, orderId);
    if k < 0 then None else Some(headers[k])
  }

  /** The number of rows `UPDATE ... WHERE order_id = ?` touches. */
  function MatchingRows(headers: seq<OrderHeader>, orderId: nat): (n: nat)
    ensures n == 0 <==> forall i :: 0 <= i < |headers| ==> headers[i].orderId != orderId
    ensures n <= |headers|
  {
    if headers == [] then 0
    else
      var n := MatchingRows(headers[1..], orderId);
      assert forall i :: 1 <= i < |headers| ==> headers[1..][i - 1] == headers[i];
      (if headers[0].orderId == orderId then 1 else 0) + n
  }

  /** order_master after `UPDATE ... SET status = s WHERE order_id = ?`. */
  function SetStatus(headers: seq<OrderHeader>, orderId: nat, s: Status): seq<OrderHeader> {
    seq(|headers|, i requires 0 <= i < |headers| =>
      if headers[i].orderId == orderId then headers[i].(status := s) else headers[i])
  }

  /** order_id is the primary key of order_master. */
  ghost predicate UniqueIds(headers: seq<OrderHeader>) {
    forall i, j :: 0 <= i < j < |headers| ==> headers[i].orderId != headers[j].orderId
  }

  /** `after` keeps every order of `before`, in place, with every column but
      the status unchanged, and each status stays put or moves one step along
      pending -> done -> completed: none is skipped, none goes back, and a
      completed order stays completed. Rows past `before` are new orders. */
  ghost predicate Progresses(before: seq<OrderHeader>, after: seq<OrderHeader>) {
    |before| <= |after| &&
    forall i :: 0 <= i < |before| ==>
      after[i].(status := before[i].status) == before[i] &&
      Rank(before[i].status) <= Rank(after[i].status) <= Rank(before[i].status) + 1
  }

  /** Adding rows changes no existing order. */
  lemma ProgressesByAppend(before: seq<OrderHeader>, added: seq<OrderHeader>)
    ensures Progresses(before, before + added)
  {
  }

  /** `after` keeps every order of `before`, in place, with every column but
      the status unchanged, and no status has moved backwards. This is what
      a run of progressing calls leaves behind: over several calls a status
      may advance by more than one step. */
  ghost predicate KeepsOrders(before: seq<OrderHeader>, after: seq<OrderHeader>) {
    |before| <= |after| &&
    forall i :: 0 <= i < |before| ==>
      after[i].(status := before[i].status) == before[i] && Rank(before[i].status) <= Rank(after[i].status)
  }

  /** Two progressing calls in a row keep every order and move no status
      backwards. */
  lemma ProgressesTransitive(a: seq<OrderHeader>, b: seq<OrderHeader>, c: seq<OrderHeader>)
    requires KeepsOrders(a, b) && Progresses(b, c)
    ensures KeepsOrders(a, c)
  {
    forall i | 0 <= i < |a|
      ensures c[i].(status := a[i].status) == a[i] && Rank(a[i].status) <= Rank(c[i].status)
    {
      assert c[i].(status := b[i].status) == b[i];
    }
  }

  /** A run of calls that each progress the table, starting from `s[0]`, keeps
      every order of `s[0]` and moves no status backwards. */
  lemma {:induction false} ProgressesRun(s: seq<seq<OrderHeader>>)
    requires |s| >= 1
    requires forall k :: 0 <= k < |s| - 1 ==> Progresses(s[k], s[k + 1])
    ensures KeepsOrders(s[0], s[|s| - 1])
  {
    if |s| == 1 {
      assert s[0] == s[|s| - 1];
    } else {
      var prefix := s[..|s| - 1];
      assert forall k :: 0 <= k < |prefix| ==> prefix[k] == s[k];
      ProgressesRun(prefix);
      ProgressesTransitive(s[0], s[|s| - 2], s[|s| - 1]);
    }
  }

  /** With order_id unique, the row FindOrder returns is the only one with that id. */
  lemma OnlyMatch(headers: seq<OrderHeader>, orderId: nat)
    requires UniqueIds(headers)
    requires OrderIndex(headers, orderId) >= 0
    ensures forall i :: 0 <= i < |headers| && headers[i].orderId == orderId ==> i == OrderIndex(headers, orderId)
  {
  }

  /** The guarded update of markOrderAsDone / markOrderAsClose: when the order
      is found with status `from` and `to` is the next status, the update
      moves that order one step and leaves every other row as it was, so the
      table progresses. */
  lemma GuardedUpdateProgresses(headers: seq<OrderHeader>, orderId: nat, from: Status, to: Status)
    requires UniqueIds(headers)
    requires FindOrder(headers, orderId).Some? && FindOrder(headers, orderId).value.status == from
    requires Rank(to) == Rank(from) + 1
    ensures Progresses(headers, SetStatus(headers, orderId, to))
    ensures forall i :: 0 <= i < |headers| && headers[i].orderId != orderId ==> SetStatus(headers, orderId, to)[i] == headers[i]
  {
    OnlyMatch(headers, orderId);
  }

  /** After the update, reading the order back finds it with the new status. */
  lemma UpdatedOrderFound(headers: seq<OrderHeader>, orderId: nat, to: Status)
    requires UniqueIds(headers)
    requires FindOrder(headers, orderId).Some?
    ensures FindOrder(SetStatus(headers, orderId, to), orderId) == Some(FindOrder(headers, orderId).value.(status := to))
  {
    OnlyMatch(headers, orderId);
    var k := OrderIndex(headers, orderId);
    var k' := OrderIndex(SetStatus(headers, orderId, to), orderId);
    assert SetStatus(headers, orderId, to)[k].orderId == orderId;
    assert k' == k;
  }
}
