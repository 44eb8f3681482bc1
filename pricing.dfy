/** The order total: the sum over the cart of price times count, rounded to two
    decimal places. Prices are exact integers in thousandths of the currency
    unit, so the sum is exact; the total is in hundredths. */
module Pricing {
  import opened OrderTypes

  /** Thousandths per hundredth: the rounding step from a price to a total. */
  const Step := 10

  /** `price * count` for one cart item, in thousandths. */
  function LineAmount(item: CartItem): int {
    item.price * item.count
  }

  /** The running sum of the cart's reduce, taken left to right from 0. */
  function RawTotal(items: seq<CartItem>): int {
    if items == [] then 0
    else RawTotal(items[..|items| - 1]) + LineAmount(items[|items| - 1])
  }

  /** Rounding of a thousandths amount to hundredths as toFixed(2) does on an
      exact decimal: to the nearest hundredth, a tie going away from zero. */
  function RoundToHundredths(amount: int): (r: int)
    ensures amount >= 0 ==> Step * r - Step / 2 <= amount < Step * r + Step / 2
    ensures amount < 0 ==> Step * r - Step / 2 < amount <= Step * r + Step / 2
  {
    if amount >= 0 then (amount + Step / 2) / Step
    else -((-amount + Step / 2) / Step)
  }

  /** The order_total stored in the header and returned in the receipt. */
  function OrderTotal(items: seq<CartItem>): (total: int)
    ensures RawTotal(items) >= 0 ==> Step * total - Step / 2 <= RawTotal(items) < Step * total + Step / 2
    ensures RawTotal(items) < 0 ==> Step * total - Step / 2 < RawTotal(items) <= Step * total + Step / 2
  {
    RoundToHundredths(RawTotal(items))
  }

  /** Summing a cart in two pieces gives the sum of the whole cart. */
  lemma {:induction false} RawTotalAppend(a: seq<CartItem>, b: seq<CartItem>)
    ensures RawTotal(a + b) == RawTotal(a) + RawTotal(b)
    decreases |b|
  {
    if b == [] {
      assert a + b == a;
    } else {
      var b' := b[..|b| - 1];
      assert (a + b)[..|a + b| - 1] == a + b';
      assert (a + b)[|a + b| - 1] == b[|b| - 1];
      RawTotalAppend(a, b');
    }
  }

  /** The total is the sum of the cart's line amounts, each taken once. */
  lemma {:induction false} RawTotalIsSumOfLines(items: seq<CartItem>, k: nat)
    requires k < |items|
    ensures RawTotal(items) == RawTotal(items[..k]) + LineAmount(items[k]) + RawTotal(items[k + 1..])
  {
    assert items == items[..k] + [items[k]] + items[k + 1..];
    RawTotalAppend(items[..k] + [items[k]], items[k + 1..]);
    RawTotalAppend(items[..k], [items[k]]);
    assert [items[k]][..0] == [];
  }

  /** When every price is a whole number of hundredths, nothing is lost to
      rounding: the total is the exact sum. */
  lemma {:induction false} WholeHundredthsTotalIsExact(items: seq<CartItem>)
    requires forall i :: 0 <= i < |items| ==> items[i].price % Step == 0
    ensures Step * OrderTotal(items) == RawTotal(items)
  {
    WholeHundredthsSum(items);
  }

  lemma {:induction false} WholeHundredthsSum(items: seq<CartItem>)
    requires forall i :: 0 <= i < |items| ==> items[i].price % Step == 0
    ensures RawTotal(items) % Step == 0
  {
    if items != [] {
      var last := items[|items| - 1];
      WholeHundredthsSum(items[..|items| - 1]);
      var q := last.price / Step;
      assert last.price == Step * q;
      assert LineAmount(last) == Step * (q * last.count);
    }
  }

  /** A cart of non-negative prices and counts has a non-negative total. */
  lemma {:induction false} TotalNonNegative(items: seq<CartItem>)
    requires forall i :: 0 <= i < |items| ==> items[i].price >= 0 && items[i].count >= 0
    ensures RawTotal(items) >= 0 && OrderTotal(items) >= 0
  {
    if items != [] {
      TotalNonNegative(items[..|items| - 1]);
    }
  }
}
