/** What whole calls of the order service do to stock and tables: failures undo themselves, the asynchronous path
    agrees with the synchronous one, cancelling undoes creating. */
module OrderFlows {
  import opened Common
  import opened Int32
  import opened Sums
  import opened ProductDb
  import opened Pricing
  import opened OrderService

  // ----- Reserving and restoring, product by product -----

  /** Units of `p` in items `j..n` whose increment never reached the stock. */
  function LostRefunds(items: seq<Item>, j: nat, n: nat, net: Network, base: nat, p: ProductId): int
    requires j <= n <= |items|
    decreases n - j
  {
    if j == n then 0
    else
      (if items[j].product == p && RefundLost(net, base, j) then items[j].quantity else 0)
      + LostRefunds(items, j + 1, n, net, base, p)
  }

  predicate RefundLost(net: Network, base: nat, i: nat) {
    FateOf(net, base + i).RequestLost?
  }

  ghost predicate Known(t: StockTable, items: seq<Item>, j: nat, n: nat) {
    forall i :: j <= i < n && i < |items| ==> items[i].product in t
  }

  /** A reservation takes exactly the items before the one it stops at, and only from products that exist. */
  lemma {:induction false} ReserveTakes(t: StockTable, items: seq<Item>, k: nat, net: Network, p: ProductId)
    requires ValidTable(t) && Sane(items) && k <= |items|
    ensures var (u, n) := Reserve(t, items, k, net);
            && ValidTable(u) && u.Keys == t.Keys && Known(t, items, k, n)
            && (p in t ==> u[p] == t[p] - QuantityOf(items[k..n], p))
    decreases |items| - k
  {
    if k < |items| {
      var i := items[k];
      LockedUpdateIsExact(t, i.product, Wrap(-i.quantity), NoFault);
      var r := Rpc(t, i.product, Wrap(-i.quantity), FateOf(net, k));
      if r.1 {
        ReserveTakes(r.0, items, k + 1, net, p);
        QuantityFirst(items, k, Reserve(r.0, items, k + 1, net).1, p);
      }
    }
  }

  lemma {:induction false} ReserveTakesAll(t: StockTable, items: seq<Item>, net: Network)
    requires ValidTable(t) && Sane(items)
    ensures var (u, n) := Reserve(t, items, 0, net);
            && ValidTable(u) && u.Keys == t.Keys && Known(t, items, 0, n)
            && forall p :: p in t ==> u[p] == t[p] - QuantityOf(items[0..n], p)
  {
    ReserveTakes(t, items, 0, net, 0);
    forall p | p in t
      ensures Reserve(t, items, 0, net).0[p] == t[p] - QuantityOf(items[0..Reserve(t, items, 0, net).1], p)
    {
      ReserveTakes(t, items, 0, net, p);
    }
  }

  /** The decrement of item `i` is answered and finds enough left by those before it. */
  ghost predicate Payable(t: StockTable, items: seq<Item>, k: nat, i: nat, net: Network)
    requires k <= i < |items|
  {
    && FateOf(net, i).Answered? && items[i].product in t
    && QuantityOf(items[k..i + 1], items[i].product) <= t[items[i].product]
  }

  lemma {:induction false} DecrementsIff(t: StockTable, items: seq<Item>, k: nat, net: Network)
    requires ValidTable(t) && Sane(items) && k < |items|
    ensures var i := items[k];
            var r := Rpc(t, i.product, Wrap(-i.quantity), FateOf(net, k));
            && (r.1 <==> Payable(t, items, k, k, net))
            && (r.1 ==> ValidTable(r.0) && i.product in t && r.0 == t[i.product := t[i.product] - i.quantity])
  {
    var i := items[k];
    LockedUpdateIsExact(t, i.product, Wrap(-i.quantity), NoFault);
    QuantityFirst(items, k, k + 1, i.product);
    assert items[k + 1..k + 1] == [];
  }

  /** What item `j` finds left does not depend on whether an earlier item is counted or already taken. */
  lemma {:induction false} PayableNext(t: StockTable, items: seq<Item>, k: nat, j: nat, net: Network)
    requires k < j < |items| && items[k].product in t
    ensures var i := items[k];
            Payable(t, items, k, j, net) <==>
            Payable(t[i.product := t[i.product] - i.quantity], items, k + 1, j, net)
  {
    QuantityFirst(items, k, j + 1, items[j].product);
  }

  /** A reservation stops at the first item that is not. */
  lemma {:induction false} ReserveStopsAtFirstRefusal(t: StockTable, items: seq<Item>, k: nat, net: Network)
    requires ValidTable(t) && Sane(items) && k <= |items|
    ensures var n := Reserve(t, items, k, net).1;
            && (forall i :: k <= i < n ==> Payable(t, items, k, i, net))
            && (n < |items| ==> !Payable(t, items, k, n, net))
    decreases |items| - k
  {
    if k < |items| {
      var r := Rpc(t, items[k].product, Wrap(-items[k].quantity), FateOf(net, k));
      DecrementsIff(t, items, k, net);
      if r.1 {
        ReserveStopsAtFirstRefusal(r.0, items, k + 1, net);
        forall j | k + 1 <= j < |items|
          ensures Payable(t, items, k, j, net) <==> Payable(r.0, items, k + 1, j, net)
        {
          PayableNext(t, items, k, j, net);
        }
      }
    }
  }

  /** The stock covers the items, products that come up several times included. */
  ghost predicate Covers(t: StockTable, items: seq<Item>) {
    && (forall i :: 0 <= i < |items| ==> items[i].product in t)
    && (forall p :: p in t ==> QuantityOf(items, p) <= t[p])
  }

  predicate AllAnswered(net: Network, n: nat) {
    forall i :: 0 <= i < n ==> FateOf(net, i).Answered?
  }

  /** A reservation succeeds if and only if every decrement is answered and the stock covers the items; it then takes
      exactly them. */
  lemma {:induction false} ReservesAllIff(t: StockTable, items: seq<Item>, net: Network)
    requires ValidTable(t) && Sane(items)
    ensures ReserveAll(t, items, net).1 <==> AllAnswered(net, |items|) && Covers(t, items)
    ensures ReserveAll(t, items, net).1 ==>
              var u := ReserveAll(t, items, net).0;
              u.Keys == t.Keys && forall p :: p in t ==> u[p] == t[p] - QuantityOf(items, p)
  {
    var n := Reserve(t, items, 0, net).1;
    ReserveStopsAtFirstRefusal(t, items, 0, net);
    ReserveTakesAll(t, items, net);
    assert items[0..|items|] == items;
    if n == |items| {
      forall i | 0 <= i < n ensures FateOf(net, i).Answered? {
        assert Payable(t, items, 0, i, net);
      }
    } else if Covers(t, items) {
      var p := items[n].product;
      assert items[0..n + 1] == items[..n + 1];
      QuantitySplit(items, n + 1, p);
      QuantityNonNegative(items[n + 1..], p);
    }
  }

  /** The compensation loop adds everything back but what is lost on the way; nothing is refused, because nothing
      more than what was taken comes back. */
  lemma {:induction false} RestoreGives(t: StockTable, items: seq<Item>, j: nat, n: nat, net: Network, base: nat,
                                       p: ProductId)
    requires ValidTable(t) && Sane(items) && j <= n <= |items| && Known(t, items, j, n)
    requires forall q :: q in t ==> t[q] + QuantityOf(items[j..n], q) <= MAX
    ensures var u := Restore(t, items, j, n, net, base);
            && ValidTable(u) && u.Keys == t.Keys
            && (p in t ==> u[p] == t[p] + QuantityOf(items[j..n], p) - LostRefunds(items, j, n, net, base, p))
    decreases n - j
  {
    if j < n {
      var i := items[j];
      forall q
        ensures QuantityOf(items[j..n], q) == QuantityFor(q)(i) + QuantityOf(items[j + 1..n], q) >= QuantityFor(q)(i)
      {
        QuantityFirst(items, j, n, q);
        QuantityNonNegative(items[j + 1..n], q);
      }
      assert QuantityFor(i.product)(i) == i.quantity;
      LockedUpdateIsExact(t, i.product, i.quantity, NoFault);
      RestoreGives(Rpc(t, i.product, i.quantity, FateOf(net, base + j)).0, items, j + 1, n, net, base, p);
    }
  }

  lemma {:induction false} LostRefundsBounds(items: seq<Item>, j: nat, n: nat, net: Network, base: nat, p: ProductId)
    requires Sane(items) && j <= n <= |items|
    ensures LostRefunds(items, j, n, net, base, p) >= 0
    ensures (forall i :: j <= i < n && items[i].product == p ==> !RefundLost(net, base, i)) <==>
            LostRefunds(items, j, n, net, base, p) == 0
    decreases n - j
  {
    if j < n {
      LostRefundsBounds(items, j + 1, n, net, base, p);
    }
  }

  /** What is lost is at most what was owed, and all of it only if every increment is lost. */
  lemma {:induction false} LostRefundsAtMost(items: seq<Item>, j: nat, n: nat, net: Network, base: nat, p: ProductId)
    requires Sane(items) && j <= n <= |items|
    ensures LostRefunds(items, j, n, net, base, p) <= QuantityOf(items[j..n], p)
    ensures (forall i :: j <= i < n && items[i].product == p ==> RefundLost(net, base, i)) <==>
            LostRefunds(items, j, n, net, base, p) == QuantityOf(items[j..n], p)
    decreases n - j
  {
    if j < n {
      LostRefundsAtMost(items, j + 1, n, net, base, p);
      QuantityFirst(items, j, n, p);
    }
  }

  /** Increments that are all lost change nothing. */
  lemma {:induction false} LostRestoresNothing(t: StockTable, items: seq<Item>, j: nat, n: nat, net: Network, base: nat)
    requires j <= n <= |items| && forall i :: j <= i < n ==> RefundLost(net, base, i)
    ensures Restore(t, items, j, n, net, base) == t
    decreases n - j
  {
    if j < n {
      assert RefundLost(net, base, j);
      LostRestoresNothing(t, items, j + 1, n, net, base);
    }
  }

  // ----- When a call is accepted -----

  predicate TxGetsThrough(f: TxFault, n: nat) {
    f.NoTxFault? || (f.AtItem? && f.j >= n)
  }

  /** CreateOrder accepts an order if and only if every decrement is answered, the stock covers it, the tables take its
      rows and its transaction does not fail; then exactly its units leave the stock, one pending row with its lines
      and their total is added, and the answer is that row. */
  lemma {:induction false} CreateAcceptsIff(st: Store, items: seq<Item>, net: Network, f: TxFault)
    requires ValidTable(st.stock) && Sane(items)
    ensures var (st', o) := Create(st, items, net, f);
            && (o.Accepted? <==> && AllAnswered(net, |items|) && Covers(st.stock, items)
                                 && RowsAccepted(items) && TxGetsThrough(f, |items|))
            && (o.Accepted? ==>
                  && o == Accepted(items, Total(items), "pending")
                  && st'.list == st.list && st'.orders == st.orders + [Row(items, Total(items), Pending, false)]
                  && st'.stock.Keys == st.stock.Keys
                  && forall p :: p in st.stock ==> st'.stock[p] == st.stock[p] - QuantityOf(items, p))
  {
    ReservesAllIff(st.stock, items, net);
  }

  /** AsyncCreateOrder if and only if every decrement is answered, the stock covers it and the push succeeds, whatever
      the tables will say; then exactly its units leave the stock and its lines are the newest in the list. */
  lemma {:induction false} AsyncAcceptsIff(st: Store, items: seq<Item>, net: Network, pushed: bool)
    requires ValidTable(st.stock) && Sane(items)
    ensures var (st', o) := Async(st, items, net, pushed);
            && (o.Accepted? <==> AllAnswered(net, |items|) && Covers(st.stock, items) && pushed)
            && (o.Accepted? ==>
                  && o == Accepted(items, Total(items), "processing")
                  && st'.orders == st.orders && st'.list == [items] + st.list
                  && st'.stock.Keys == st.stock.Keys
                  && forall p :: p in st.stock ==> st'.stock[p] == st.stock[p] - QuantityOf(items, p))
  {
    ReservesAllIff(st.stock, items, net);
  }

  // ----- From the request to the stock -----

  /** Units of `p` asked for by the requests. */
  ghost function AskedFor(p: ProductId): ItemRequest -> int {
    (r: ItemRequest) => if r.product == p then r.quantity else 0
  }

  ghost function UnitsAsked(rs: seq<ItemRequest>, p: ProductId): int {
    Sum(rs, AskedFor(p))
  }

  lemma {:induction false} UnitsAsAsked(c: Catalog, rs: seq<ItemRequest>, items: seq<Item>, p: ProductId)
    requires AsAsked(c, rs, items)
    ensures QuantityOf(items, p) == UnitsAsked(rs, p)
  {
    if rs != [] {
      var n := |rs| - 1;
      assert forall k :: 0 <= k < n ==> LineAsAsked(c, rs[..n][k], items[..n][k]);
      assert LineAsAsked(c, rs[n], items[n]);
      UnitsAsAsked(c, rs[..n], items[..n], p);
    }
  }

  /** Quantities are positive and prices are `int32`. */
  predicate SaneRequests(c: Catalog, rs: seq<ItemRequest>) {
    && (forall k :: 0 <= k < |rs| ==> 1 <= rs[k].quantity <= MAX)
    && (forall p :: p in c.prices ==> InRange(c.prices[p]))
    && (forall d :: d in c.deals ==> InRange(c.deals[d].price))
  }

  /** What a buyer asks for is what is taken: an accepted order takes from every product the units asked of it, those
      asked for in deals included, and stores one line a request, in order, as asked. */
  lemma {:induction false} CreateServesTheRequest(st: Store, c: Catalog, rs: seq<ItemRequest>, net: Network, f: TxFault)
    requires ValidTable(st.stock) && SaneRequests(c, rs)
    requires PriceAll(c, rs).Priced? && Create(st, PriceAll(c, rs).items, net, f).1.Accepted?
    ensures var (st', o) := Create(st, PriceAll(c, rs).items, net, f);
            && st'.orders == st.orders + [Row(o.items, Total(o.items), Pending, false)] && AsAsked(c, rs, o.items)
            && st'.stock.Keys == st.stock.Keys
            && (forall p :: p in st.stock ==> st'.stock[p] == st.stock[p] - UnitsAsked(rs, p))
  {
    var items := PriceAll(c, rs).items;
    PricedAsAskedIff(c, rs);
    assert Sane(items) by {
      forall k | 0 <= k < |items| ensures 1 <= items[k].quantity <= MAX && InRange(items[k].price) {
        assert LineAsAsked(c, rs[k], items[k]);
      }
    }
    CreateAcceptsIff(st, items, net, f);
    forall p ensures QuantityOf(items, p) == UnitsAsked(rs, p) {
      UnitsAsAsked(c, rs, items, p);
    }
  }

  // ----- A failing create is a no-op -----

  /** Units of `p` taken by the decrement that the caller saw fail: its reply was lost after it took effect. */
  function Unacknowledged(t: StockTable, items: seq<Item>, net: Network, p: ProductId): int {
    var (u, k) := Reserve(t, items, 0, net);
    if k < |items| && items[k].product == p && AfterFailedDecrement(u, items, k, net) != u then items[k].quantity else 0
  }

  /** The failing decrement either left the stock alone or took its own item. */
  lemma {:induction false} FailedDecrementTakesAtMostItsItem(u: StockTable, items: seq<Item>, k: nat, net: Network)
    requires ValidTable(u) && Sane(items) && k < |items|
    ensures var v, p := AfterFailedDecrement(u, items, k, net), items[k].product;
            && ValidTable(v) && v.Keys == u.Keys
            && (v != u ==> p in u && v == u[p := u[p] - items[k].quantity])
  {
  }

  lemma {:induction false} FailedReservationLaw(t: StockTable, items: seq<Item>, net: Network, p: ProductId)
    requires ValidTable(t) && Sane(items) && !ReserveAll(t, items, net).1
    ensures var k := Reserve(t, items, 0, net).1;
            var u := ReserveAll(t, items, net).0;
            && u.Keys == t.Keys
            && (p in t ==> u[p] == t[p] - LostRefunds(items, 0, k, net, |items|, p) - Unacknowledged(t, items, net, p))
  {
    var (u, k) := Reserve(t, items, 0, net);
    var v := AfterFailedDecrement(u, items, k, net);
    ReserveTakesAll(t, items, net);
    FailedDecrementTakesAtMostItsItem(u, items, k, net);
    forall q | q in v ensures v[q] + QuantityOf(items[0..k], q) <= MAX {
      assert v[q] <= u[q];
    }
    RestoreGives(v, items, 0, k, net, |items|, p);
  }

  lemma {:induction false} AbortedOrderLaw(t: StockTable, items: seq<Item>, net: Network, p: ProductId)
    requires ValidTable(t) && Sane(items) && ReserveAll(t, items, net).1
    ensures var u := RestoreAll(ReserveAll(t, items, net).0, items, net, |items|);
            && u.Keys == t.Keys
            && (p in t ==> u[p] == t[p] - LostRefunds(items, 0, |items|, net, |items|, p))
  {
    var u := ReserveAll(t, items, net).0;
    ReserveTakesAll(t, items, net);
    RestoreGives(u, items, 0, |items|, net, |items|, p);
  }

  /** Every compensation of a failed call reached the stock, and the decrement it saw fail had not. */
  ghost predicate CompensationsThrough(t: StockTable, items: seq<Item>, net: Network) {
    var (u, k) := Reserve(t, items, 0, net);
    && (forall i :: 0 <= i < k ==> !RefundLost(net, |items|, i))
    && (k < |items| ==> AfterFailedDecrement(u, items, k, net) == u)
  }

  /** A rejected CreateOrder leaves orders and queue alone, and leaves the stock as it was (whatever the items,
      repeated products included, and wherever it failed: at any decrement, at the transaction's begin, at the
      order row, at any item row, at the commit) if and only if the compensations got through. */
  lemma {:induction false} FailedCreateIsNoOpIff(st: Store, items: seq<Item>, net: Network, f: TxFault)
    requires ValidTable(st.stock) && Sane(items) && Create(st, items, net, f).1.Rejected?
    ensures var st' := Create(st, items, net, f).0;
            && st'.orders == st.orders && st'.list == st.list
            && (st' == st <==> CompensationsThrough(st.stock, items, net))
  {
    var t, t' := st.stock, Create(st, items, net, f).0.stock;
    StockAfterFailureIff(t, items, net, t');
  }

  /** The same for AsyncCreateOrder, which can also fail to push. */
  lemma {:induction false} FailedAsyncIsNoOpIff(st: Store, items: seq<Item>, net: Network, pushed: bool)
    requires ValidTable(st.stock) && Sane(items) && Async(st, items, net, pushed).1.Rejected?
    ensures var st' := Async(st, items, net, pushed).0;
            && st'.orders == st.orders && st'.list == st.list
            && (st' == st <==> CompensationsThrough(st.stock, items, net))
  {
    var t, t' := st.stock, Async(st, items, net, pushed).0.stock;
    StockAfterFailureIff(t, items, net, t');
  }

  lemma {:induction false} StockAfterFailureLaw(t: StockTable, items: seq<Item>, net: Network, t': StockTable,
                                               p: ProductId)
    requires ValidTable(t) && Sane(items)
    requires var r := ReserveAll(t, items, net);
             t' == if r.1 then RestoreAll(r.0, items, net, |items|) else r.0
    ensures t'.Keys == t.Keys
    ensures var k := Reserve(t, items, 0, net).1;
            p in t ==> t'[p] == t[p] - LostRefunds(items, 0, k, net, |items|, p) - Unacknowledged(t, items, net, p)
  {
    if ReserveAll(t, items, net).1 {
      AbortedOrderLaw(t, items, net, p);
    } else {
      FailedReservationLaw(t, items, net, p);
    }
  }

  lemma {:induction false} StockAfterFailureIff(t: StockTable, items: seq<Item>, net: Network, t': StockTable)
    requires ValidTable(t) && Sane(items)
    requires var r := ReserveAll(t, items, net);
             t' == if r.1 then RestoreAll(r.0, items, net, |items|) else r.0
    ensures t' == t <==> CompensationsThrough(t, items, net)
  {
    var (u, k) := Reserve(t, items, 0, net);
    ReserveTakesAll(t, items, net);
    StockAfterFailureLaw(t, items, net, t', 0);
    if CompensationsThrough(t, items, net) {
      forall p | p in t ensures t'[p] == t[p] {
        StockAfterFailureLaw(t, items, net, t', p);
        LostRefundsBounds(items, 0, k, net, |items|, p);
      }
    } else if i :| 0 <= i < k && RefundLost(net, |items|, i) {
      var p := items[i].product;
      StockAfterFailureLaw(t, items, net, t', p);
      LostRefundsBounds(items, 0, k, net, |items|, p);
      assert t'[p] < t[p];
    } else {
      var p := items[k].product;
      FailedDecrementTakesAtMostItsItem(u, items, k, net);
      StockAfterFailureLaw(t, items, net, t', p);
      LostRefundsBounds(items, 0, k, net, |items|, p);
      assert t'[p] < t[p];
    }
  }

  /** Why quantities must be positive. The Go handler does not check them; the table does, but only after the stock
      moved: an asynchronous order for minus one unit adds a unit of stock, is dropped by the worker, and no
      compensation follows. */
  lemma {:induction false} NegativeQuantityMintsStock(net: Network)
    requires FateOf(net, 0).Answered?
    ensures var st := Store(map[7 := 0], [], []);
            Drain(Async(st, [Item(7, -1, 0)], net, true).0) == Store(map[7 := 1], [], [])
  {
  }
}
