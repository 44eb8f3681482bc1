/** Daily order numbers: the highest order_no already used on a day, and the
    number the next order of that day receives. */
module OrderNumber {
  import opened OrderTypes

  /** The single order_no the lookup "highest order_no of this day" returns,
      or None when the day has no order yet. */
  function LatestOrderNo(headers: seq<OrderHeader>, day: Date): (r: Option<int>)
    ensures r.None? <==> forall i :: 0 <= i < |headers| ==> headers[i].orderDate != day
    ensures r.Some? ==> exists i :: 0 <= i < |headers| && headers[i].orderDate == day && headers[i].orderNo == r.value
    ensures r.Some? ==> forall i :: 0 <= i < |headers| && headers[i].orderDate == day ==> headers[i].orderNo <= r.value
  {
    if headers == [] then None
    else
      var rest := LatestOrderNo(headers[..|headers| - 1], day);
      var last := headers[|headers| - 1];
      assert forall i :: 0 <= i < |headers| - 1 ==> headers[..|headers| - 1][i] == headers[i];
      if last.orderDate != day then rest
      else if rest.None? || rest.value < last.orderNo then Some(last.orderNo)
      else rest
  }

  /** The rows of that lookup: empty, or the one highest order_no. */
  function LatestOrderRows(headers: seq<OrderHeader>, day: Date): seq<int> {
    match LatestOrderNo(headers, day)
    case None => []
    case Some(m) => [m]
  }

  /** The number the next order of `day` receives: one more than the highest
      order_no of that day, or 1 for the day's first order. */
  function NextOrderNo(headers: seq<OrderHeader>, day: Date): (n: int)
    ensures forall i :: 0 <= i < |headers| && headers[i].orderDate == day ==> headers[i].orderNo < n
    ensures (forall i :: 0 <= i < |headers| ==> headers[i].orderDate != day) ==> n == 1
    ensures (exists i :: 0 <= i < |headers| && headers[i].orderDate == day) ==>
              exists i :: 0 <= i < |headers| && headers[i].orderDate == day && headers[i].orderNo == n - 1
  {
    var lastOrder := LatestOrderRows(headers, day);
    if |lastOrder| > 0 then lastOrder[0] + 1 else 1
  }

  /** No two orders of the same day share an order_no. */
  ghost predicate DayNumbersUnique(headers: seq<OrderHeader>) {
    forall i, j :: 0 <= i < j < |headers| && headers[i].orderDate == headers[j].orderDate ==>
      headers[i].orderNo != headers[j].orderNo
  }

  /** Appending an order whose number exceeds every number of its day (as
      NextOrderNo's does) keeps the day's numbers unique. */
  lemma LargerNumberKeepsDayNumbersUnique(headers: seq<OrderHeader>, h: OrderHeader)
    requires DayNumbersUnique(headers)
    requires forall i :: 0 <= i < |headers| && headers[i].orderDate == h.orderDate ==> headers[i].orderNo < h.orderNo
    ensures DayNumbersUnique(headers + [h])
  {
    var hs := headers + [h];
    forall i, j | 0 <= i < j < |hs| && hs[i].orderDate == hs[j].orderDate
      ensures hs[i].orderNo != hs[j].orderNo
    {
      if j == |headers| {
        assert hs[i] == headers[i];
      } else {
        assert hs[i] == headers[i] && hs[j] == headers[j];
      }
    }
  }

  /** When every stored order_no is at least 1, so is the next one. */
  lemma NextOrderNoPositive(headers: seq<OrderHeader>, day: Date)
    requires forall i :: 0 <= i < |headers| ==> headers[i].orderNo >= 1
    ensures NextOrderNo(headers, day) >= 1
  {
    if exists i :: 0 <= i < |headers| && headers[i].orderDate == day {
      var i :| 0 <= i < |headers| && headers[i].orderDate == day && headers[i].orderNo == NextOrderNo(headers, day) - 1;
    }
  }

  /** Run one after another, the orders of a day are numbered 1, 2, 3, ...:
      after an order numbered NextOrderNo is stored, the next one is one higher,
      and the numbers of every other day are unaffected. */
  lemma {:induction false} NextOrderNoAfterInsert(headers: seq<OrderHeader>, h: OrderHeader, day: Date)
    requires h.orderNo == NextOrderNo(headers, h.orderDate)
    ensures day == h.orderDate ==> NextOrderNo(headers + [h], day) == NextOrderNo(headers, day) + 1
    ensures day != h.orderDate ==> NextOrderNo(headers + [h], day) == NextOrderNo(headers, day)
  {
    var hs := headers + [h];
    assert hs[..|hs| - 1] == headers;
  }

  /** Why the numbering holds only for runs one after another: two creations
      of the same day that both read the table before either inserts take the
      same number, and the day's numbers are no longer unique. */
  lemma StaleReadRepeatsNumber(headers: seq<OrderHeader>, a: OrderHeader, b: OrderHeader)
    requires a.orderDate == b.orderDate
    requires a.orderNo == NextOrderNo(headers, a.orderDate) && b.orderNo == NextOrderNo(headers, b.orderDate)
    ensures !DayNumbersUnique(headers + [a, b])
  {
    var hs := headers + [a, b];
    assert hs[|headers|] == a && hs[|headers| + 1] == b;
  }
}
