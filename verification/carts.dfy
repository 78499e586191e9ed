/** Shopping-cart line items and their total, as `pay` computes it. */
module Carts {
  import opened Catalog

  /** One cart entry: the medicine's name and its price in cents, copied at the time of adding. */
  datatype LineItem = LineItem(name: string, price: nat)

  /** The line item a catalog entry becomes when added to a cart. */
  function ItemOf(m: Medicine): LineItem {
    LineItem(m.name, m.price)
  }

  /** True iff `item` is a copy of some catalog entry. */
  predicate IsCatalogItem(item: LineItem) {
    exists k :: 0 <= k < |Medicines| && ItemOf(Medicines[k]) == item
  }

  /** The sum of the item prices: the reference definition of a cart's total. */
  function Sum(items: seq<LineItem>): nat {
    if |items| == 0 then 0 else items[0].price + Sum(items[1..])
  }

  /** The total of two carts laid end to end is the sum of their totals. */
  lemma {:induction false} SumConcat(a: seq<LineItem>, b: seq<LineItem>)
    ensures Sum(a + b) == Sum(a) + Sum(b)
    decreases |a|
  {
    if |a| == 0 {
      assert a + b == b;
    } else {
      assert (a + b)[1..] == a[1..] + b;
      SumConcat(a[1..], b);
    }
  }

  /** The running-total loop of `pay`, adding prices front to back. */
  method CartTotal(cart: seq<LineItem>) returns (total: nat)
    ensures total == Sum(cart)
  {
    total := 0;
    var i := 0;
    while i < |cart|
      invariant 0 <= i <= |cart|
      invariant total == Sum(cart[..i])
    {
      SumConcat(cart[..i], [cart[i]]);
      assert cart[..i + 1] == cart[..i] + [cart[i]];
      total := total + cart[i].price;
      i := i + 1;
    }
    assert cart[..i] == cart;
  }
}
