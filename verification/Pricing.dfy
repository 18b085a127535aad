/** Order lines and their money, in Go's `int32`. */
module Pricing {
  import opened Int32
  import opened Sums
  import opened ProductDb

  /** A priced line of an order: what is bought, how many, at which unit price. */
  datatype Item = Item(product: ProductId, quantity: int, price: int)

  function Subtotal(i: Item): int {
    Wrap(i.price * i.quantity)
  }

  /** The running `totalAmount` after all items. */
  function Total(items: seq<Item>): int {
    if items == [] then 0 else Wrap(Total(items[..|items| - 1]) + Subtotal(items[|items| - 1]))
  }

  /** The CHECK constraints of the item table. */
  predicate LineAccepted(i: Item) {
    i.quantity >= 1 && i.price >= 0 && Subtotal(i) >= 0
  }

  /** The CHECK constraints of both order tables. */
  predicate RowsAccepted(items: seq<Item>) {
    Total(items) >= 0 && forall k :: 0 <= k < |items| ==> LineAccepted(items[k])
  }

  /** What requests are taken to satisfy: positive `int32` quantities and `int32` prices. */
  predicate Sane(items: seq<Item>) {
    forall k :: 0 <= k < |items| ==> 1 <= items[k].quantity <= MAX && InRange(items[k].price)
  }

  /** Units of `p` among the items; a product may appear several times. */
  ghost function QuantityFor(p: ProductId): Item -> int {
    (i: Item) => if i.product == p then i.quantity else 0
  }

  ghost function QuantityOf(items: seq<Item>, p: ProductId): int {
    Sum(items, QuantityFor(p))
  }

  lemma {:induction false} QuantityNonNegative(items: seq<Item>, p: ProductId)
    requires Sane(items)
    ensures QuantityOf(items, p) >= 0
  {
    SumNonNegative(items, QuantityFor(p));
  }

  lemma {:induction false} QuantityFirst(items: seq<Item>, lo: nat, hi: nat, p: ProductId)
    requires lo < hi <= |items|
    ensures QuantityOf(items[lo..hi], p) == QuantityFor(p)(items[lo]) + QuantityOf(items[lo + 1..hi], p)
  {
    assert items[lo..hi] == [items[lo]] + items[lo + 1..hi];
    SumPrepend(items[lo], items[lo + 1..hi], QuantityFor(p));
  }

  lemma {:induction false} QuantityLast(items: seq<Item>, lo: nat, hi: nat, p: ProductId)
    requires lo <= hi < |items|
    ensures QuantityOf(items[lo..hi + 1], p) == QuantityOf(items[lo..hi], p) + QuantityFor(p)(items[hi])
  {
    assert items[lo..hi + 1] == items[lo..hi] + [items[hi]];
    SumAppend(items[lo..hi], items[hi], QuantityFor(p));
  }

  lemma {:induction false} QuantitySplit(items: seq<Item>, k: nat, p: ProductId)
    requires k <= |items|
    ensures QuantityOf(items, p) == QuantityOf(items[..k], p) + QuantityOf(items[k..], p)
  {
    assert items == items[..k] + items[k..];
    SumConcat(items[..k], items[k..], QuantityFor(p));
  }

  // ----- Money without overflow -----

  ghost function ExactSubtotal(): Item -> int {
    (i: Item) => i.price * i.quantity
  }

  /** Beyond them it is the true sum up to multiples of 2^32, for any items whatever. */
  lemma {:induction false} MoneyWraps(items: seq<Item>)
    ensures InRange(Total(items)) && (Sum(items, ExactSubtotal()) - Total(items)) % MODULUS == 0
    ensures forall k :: 0 <= k < |items| ==>
              InRange(Subtotal(items[k])) && (items[k].price * items[k].quantity - Subtotal(items[k])) % MODULUS == 0
  {
    if items != [] {
      var n := |items| - 1;
      var before, product := Total(items[..n]), items[n].price * items[n].quantity;
      MoneyWraps(items[..n]);
      WrapsAdd(Sum(items[..n], ExactSubtotal()), before, product);
    }
  }

  lemma {:induction false} WrapsAdd(sum: int, total: int, product: int)
    requires (sum - total) % MODULUS == 0
    ensures (sum + product - Wrap(total + Wrap(product))) % MODULUS == 0
  {
    var a, b, c := sum - total, product - Wrap(product), total + Wrap(product) - Wrap(total + Wrap(product));
    assert sum + product - Wrap(total + Wrap(product)) == a + b + c;
    MultiplesAdd(a, b);
    MultiplesAdd(a + b, c);
  }

  lemma {:induction false} MultiplesAdd(a: int, b: int)
    requires a % MODULUS == 0 && b % MODULUS == 0
    ensures (a + b) % MODULUS == 0
  {
    assert a == MODULUS * (a / MODULUS) && b == MODULUS * (b / MODULUS);
    assert a + b == MODULUS * (a / MODULUS + b / MODULUS);
  }

  /** The limits of the API: at most 10 items of at most 10 units, and the dearest price they allow. */
  predicate WithinLimits(items: seq<Item>) {
    && |items| <= 10
    && forall k :: 0 <= k < |items| ==> 1 <= items[k].quantity <= 10 && 0 <= items[k].price <= 21474836
  }

  /** Within the limits nothing wraps: total and subtotals are the true products and sum, and the tables accept
      the rows. */
  lemma {:induction false} MoneyIsExact(items: seq<Item>)
    requires WithinLimits(items)
    ensures Total(items) == Sum(items, ExactSubtotal())
    ensures 0 <= Total(items) <= 214748360 * |items|
    ensures forall k :: 0 <= k < |items| ==> Subtotal(items[k]) == items[k].price * items[k].quantity
    ensures RowsAccepted(items)
  {
    if items != [] {
      var n := |items| - 1;
      MoneyIsExact(items[..n]);
      LineFits(items[n]);
    }
    forall k | 0 <= k < |items|
      ensures Subtotal(items[k]) == items[k].price * items[k].quantity && Subtotal(items[k]) >= 0
    {
      LineFits(items[k]);
    }
  }

  lemma {:induction false} LineFits(i: Item)
    requires 1 <= i.quantity <= 10 && 0 <= i.price <= 21474836
    ensures 0 <= i.price * i.quantity <= 214748360
    ensures Subtotal(i) == i.price * i.quantity
  {
  }
}
