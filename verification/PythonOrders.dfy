/** The Python order service's way of creating an order: exact money, one step to `confirmed`, and a compensation that
    covers fewer failures than the Go service's. */
module PythonOrders {
  import opened Common
  import opened Int32
  import opened Sums
  import opened ProductDb
  import opened Pricing
  import opened OrderService
  import opened OrderFlows
  import opened OrderRefinement

  /** Which remote calls, when they are not answered, fail with something else than a `ProductClientError`: with the
      HTTP clients, those that end in a transport error or a timeout; with the gRPC client, none. */
  type Escapes = seq<bool>

  predicate Escaped(net: Network, esc: Escapes, i: nat) {
    i < |esc| && esc[i] && !FateOf(net, i).Answered?
  }

  /** How the insert transaction can end besides a value the tables refuse: an INSERT that returns no row is the
      service's own error, everything else comes as an exception of the database layer. */
  datatype PyFault = NoPyFault | NoOrderRow | Raises

  /** Python integers do not wrap. */
  function PyTotal(items: seq<Item>): int {
    if items == [] then 0
    else PyTotal(items[..|items| - 1]) + items[|items| - 1].price * items[|items| - 1].quantity
  }

  predicate PyLineAccepted(i: Item) {
    i.quantity >= 1 && i.price >= 0 && 0 <= i.price * i.quantity <= MAX
  }

  predicate PyRowsAccepted(items: seq<Item>) {
    0 <= PyTotal(items) <= MAX && forall k :: 0 <= k < |items| ==> PyLineAccepted(items[k])
  }

  /** The compensation loop passes over errors of its own kind; any other ends it. */
  function PyRestore(t: StockTable, items: seq<Item>, j: nat, n: nat, net: Network, esc: Escapes, base: nat): StockTable
    requires j <= n <= |items|
    decreases n - j
  {
    if j == n then t
    else
      var t' := Rpc(t, items[j].product, items[j].quantity, FateOf(net, base + j)).0;
      if Escaped(net, esc, base + j) then t' else PyRestore(t', items, j + 1, n, net, esc, base)
  }

  function PyCreate(st: Store, items: seq<Item>, net: Network, esc: Escapes, f: PyFault): (Store, Outcome) {
    var r := Reserve(st.stock, items, 0, net);
    if r.1 < |items| then
      var failed := AfterFailedDecrement(r.0, items, r.1, net);
      (st.(stock := if Escaped(net, esc, r.1) then failed
                    else PyRestore(failed, items, 0, r.1, net, esc, |items|)), Rejected(StockError))
    else if f.NoOrderRow? && 0 <= PyTotal(items) <= MAX then
      (st.(stock := PyRestore(r.0, items, 0, |items|, net, esc, |items|)), Rejected(CreateFailed))
    else if f.NoPyFault? && PyRowsAccepted(items) then
      (st.(stock := r.0, orders := st.orders + [Row(items, PyTotal(items), Confirmed, false)]),
       Accepted(items, PyTotal(items), "confirmed"))
    else
      (st.(stock := r.0), Rejected(CreateFailed))
  }

  /** The compensation loop over the first `n` items. */
  method GiveBack(s: Service, items: seq<Item>, n: nat, net: Network, esc: Escapes)
    requires n <= |items|
    modifies s`stock
    ensures s.stock == PyRestore(old(s.stock), items, 0, n, net, esc, |items|)
  {
    for j := 0 to n
      invariant PyRestore(s.stock, items, j, n, net, esc, |items|)
             == PyRestore(old(s.stock), items, 0, n, net, esc, |items|)
    {
      s.stock := Rpc(s.stock, items[j].product, items[j].quantity, FateOf(net, |items| + j)).0;
      if Escaped(net, esc, |items| + j) {
        return;
      }
    }
  }

  /** Prices and total; any error, caught or not, ends the call before any stock is touched. */
  method PriceItems(c: Catalog, rs: seq<ItemRequest>) returns (r: Priced, total: int)
    ensures r == PriceAll(c, rs)
    ensures r.Priced? <==> forall k :: 0 <= k < |rs| ==> Priceable(c, rs[k])
    ensures r.Priced? ==> AsAsked(c, rs, r.items) && total == PyTotal(r.items)
    ensures r.Unpriced? ==> exists k :: FirstRefused(c, rs, k, r.error)
  {
    PricedAsAskedIff(c, rs);
    var items: seq<Item> := [];
    total := 0;
    for k := 0 to |rs|
      invariant PriceAll(c, rs[..k]) == Priced(items)
      invariant total == PyTotal(items)
    {
      assert rs[..k + 1][..k] == rs[..k];
      match PriceOne(c, rs[k]) {
        case NotQuoted(e) =>
          FirstErrorStops(c, rs, k + 1);
          return Unpriced(e), 0;
        case Quoted(line) =>
          assert (items + [line])[..|items|] == items;
          total := total + line.price * line.quantity;
          items := items + [line];
      }
    }
    assert rs[..|rs|] == rs;
    r := Priced(items);
  }

  method CreateOrder(s: Service, c: Catalog, rs: seq<ItemRequest>, net: Network, esc: Escapes, f: PyFault)
    returns (o: Outcome)
    modifies s
    ensures match PriceAll(c, rs)
            case Unpriced(e) => s.View() == old(s.View()) && o == Rejected(e)
            case Priced(items) => (s.View(), o) == PyCreate(old(s.View()), items, net, esc, f)
    ensures o.Accepted? ==>
            && AsAsked(c, rs, o.items) && o.total == PyTotal(o.items) && o.status == "confirmed"
            && s.list == old(s.list) && s.orders == old(s.orders) + [Row(o.items, o.total, Confirmed, false)]
    ensures (exists k :: 0 <= k < |rs| && !Priceable(c, rs[k])) ==>
            s.View() == old(s.View()) && o.Rejected? && exists k :: FirstRefused(c, rs, k, o.error)
  {
    var priced, total := PriceItems(c, rs);
    if priced.Unpriced? {
      return Rejected(priced.error);
    }
    o := PlaceOrder(s, priced.items, total, net, esc, f);
  }

  /** The reservation; unless the error escapes, what was taken is given back. */
  method TakeItems(s: Service, items: seq<Item>, net: Network, esc: Escapes) returns (ok: bool)
    modifies s`stock
    ensures var (u, k) := Reserve(old(s.stock), items, 0, net);
            && ok == (k == |items|)
            && s.stock == if k == |items| then u
                          else if Escaped(net, esc, k) then AfterFailedDecrement(u, items, k, net)
                          else PyRestore(AfterFailedDecrement(u, items, k, net), items, 0, k, net, esc, |items|)
  {
    for k := 0 to |items|
      invariant Reserve(s.stock, items, k, net) == Reserve(old(s.stock), items, 0, net)
    {
      var r := Rpc(s.stock, items[k].product, Wrap(-items[k].quantity), FateOf(net, k));
      if !r.1 {
        assert Reserve(old(s.stock), items, 0, net) == (s.stock, k);
        s.stock := r.0;
        if !Escaped(net, esc, k) {
          GiveBack(s, items, k, net, esc);
        }
        return false;
      }
      s.stock := r.0;
    }
    return true;
  }

  /** The item rows, each checked by the table; false when one is refused. */
  method ItemRows(items: seq<Item>) returns (ok: bool, created: seq<Item>)
    ensures ok == forall k :: 0 <= k < |items| ==> PyLineAccepted(items[k])
    ensures ok ==> created == items
  {
    created := [];
    for k := 0 to |items|
      invariant created == items[..k]
      invariant forall i :: 0 <= i < k ==> PyLineAccepted(items[i])
    {
      if !PyLineAccepted(items[k]) {
        return false, created;
      }
      created := created + [items[k]];
    }
    return true, created;
  }

  /** From the first decrement to the commit. */
  method PlaceOrder(s: Service, items: seq<Item>, total: int, net: Network, esc: Escapes, f: PyFault)
    returns (o: Outcome)
    requires total == PyTotal(items)
    modifies s
    ensures (s.View(), o) == PyCreate(old(s.View()), items, net, esc, f)
  {
    var taken := TakeItems(s, items, net, esc);
    if !taken {
      return Rejected(StockError);
    }
    if !(0 <= total <= MAX) {
      return Rejected(CreateFailed);
    }
    if f.NoOrderRow? {
      GiveBack(s, items, |items|, net, esc);
      return Rejected(CreateFailed);
    }
    var ok, created := ItemRows(items);
    if !ok || f.Raises? {
      return Rejected(CreateFailed);
    }
    s.orders := s.orders + [Row(created, total, Confirmed, false)];
    return Accepted(created, total, "confirmed");
  }

  /** The service accepts an order if and only if every decrement is answered, the stock covers it, the tables take its
      exact money and the insert does not fail; then exactly its units leave the stock, one confirmed row with its
      lines and their exact total is added, and the answer is that row. */
  lemma {:induction false} PyCreateAcceptsIff(st: Store, items: seq<Item>, net: Network, esc: Escapes, f: PyFault)
    requires ValidTable(st.stock) && Sane(items)
    ensures var (st', o) := PyCreate(st, items, net, esc, f);
            && (o.Accepted? <==> && AllAnswered(net, |items|) && Covers(st.stock, items) && f.NoPyFault?
                                 && 0 <= Sum(items, ExactSubtotal()) <= MAX
                                 && (forall k :: 0 <= k < |items| ==> PyLineAccepted(items[k])))
            && (o.Accepted? ==>
                  && o == Accepted(items, Sum(items, ExactSubtotal()), "confirmed")
                  && st'.list == st.list && st'.orders == st.orders + [Row(items, o.total, Confirmed, false)]
                  && st'.stock.Keys == st.stock.Keys
                  && forall p :: p in st.stock ==> st'.stock[p] == st.stock[p] - QuantityOf(items, p))
  {
    ReservesAllIff(st.stock, items, net);
    PyTotalIsExact(items);
  }

  // ----- What a failed call gives back -----

  /** The service sees the failure itself and compensates: a failed decrement whose error it catches, or an INSERT
      without a row. */
  predicate Compensates(t: StockTable, items: seq<Item>, net: Network, esc: Escapes, f: PyFault) {
    var k := Reserve(t, items, 0, net).1;
    if k < |items| then !Escaped(net, esc, k) else f.NoOrderRow? && 0 <= PyTotal(items) <= MAX
  }

  predicate Ends(net: Network, esc: Escapes, base: nat, j: nat) {
    Escaped(net, esc, base + j)
  }

  /** The compensation loop gets to item `i`: no earlier increment ended it. */
  predicate GetsTo(net: Network, esc: Escapes, base: nat, i: nat) {
    forall j :: 0 <= j < i ==> !Ends(net, esc, base, j)
  }

  /** The increment of item `i` reaches the stock: the service compensates, its loop gets there, and the increment is
      not lost. */
  predicate GivenBack(t: StockTable, items: seq<Item>, net: Network, esc: Escapes, f: PyFault, i: nat) {
    && Compensates(t, items, net, esc, f)
    && !RefundLost(net, |items|, i)
    && GetsTo(net, esc, |items|, i)
  }

  /** The network as the stock sees it: increments that are not given back count as lost. */
  function Seen(t: StockTable, items: seq<Item>, net: Network, esc: Escapes, f: PyFault): Network {
    seq(2 * |items|, i requires 0 <= i < 2 * |items| =>
      if i < |items| || GivenBack(t, items, net, esc, f, i - |items|) then FateOf(net, i) else RequestLost)
  }

  lemma {:induction false} SameFatesReserveTheSame(t: StockTable, items: seq<Item>, k: nat, net: Network, net': Network)
    requires k <= |items| && forall i :: 0 <= i < |items| ==> FateOf(net, i) == FateOf(net', i)
    ensures Reserve(t, items, k, net) == Reserve(t, items, k, net')
    decreases |items| - k
  {
    if k < |items| {
      var r := Rpc(t, items[k].product, Wrap(-items[k].quantity), FateOf(net, k));
      if r.1 {
        SameFatesReserveTheSame(r.0, items, k + 1, net, net');
      }
    }
  }

  predicate SeenRight(net: Network, esc: Escapes, seen: Network, base: nat, i: nat) {
    if GetsTo(net, esc, base, i) then FateOf(seen, base + i) == FateOf(net, base + i) else RefundLost(seen, base, i)
  }

  /** A loop that may end early is one whose later calls are lost. */
  lemma {:induction false} PyRestoreIsRestore(t: StockTable, items: seq<Item>, j: nat, n: nat, net: Network,
                                             esc: Escapes, seen: Network, base: nat)
    requires j <= n <= |items|
    requires forall i :: j <= i < n ==> SeenRight(net, esc, seen, base, i)
    requires GetsTo(net, esc, base, j)
    ensures PyRestore(t, items, j, n, net, esc, base) == Restore(t, items, j, n, seen, base)
    decreases n - j
  {
    if j < n {
      var t' := Rpc(t, items[j].product, items[j].quantity, FateOf(net, base + j)).0;
      assert SeenRight(net, esc, seen, base, j);
      if Ends(net, esc, base, j) {
        forall i | j + 1 <= i < n ensures RefundLost(seen, base, i) {
          assert SeenRight(net, esc, seen, base, i);
        }
        LostRestoresNothing(t', items, j + 1, n, seen, base);
      } else {
        PyRestoreIsRestore(t', items, j + 1, n, net, esc, seen, base);
      }
    }
  }

  /** A rejected order leaves the stock that the Go compensation leaves over the network as seen. */
  lemma {:induction false} RejectedStock(st: Store, items: seq<Item>, net: Network, esc: Escapes, f: PyFault)
    requires PyCreate(st, items, net, esc, f).1.Rejected?
    ensures var seen := Seen(st.stock, items, net, esc, f);
            var r := ReserveAll(st.stock, items, seen);
            && Reserve(st.stock, items, 0, seen) == Reserve(st.stock, items, 0, net)
            && PyCreate(st, items, net, esc, f).0
               == st.(stock := if r.1 then RestoreAll(r.0, items, seen, |items|) else r.0)
  {
    var seen := Seen(st.stock, items, net, esc, f);
    var (u, k) := Reserve(st.stock, items, 0, net);
    SameFatesReserveTheSame(st.stock, items, 0, net, seen);
    var t := if k < |items| then AfterFailedDecrement(u, items, k, net) else u;
    assert k < |items| ==> AfterFailedDecrement(u, items, k, seen) == t;
    if Compensates(st.stock, items, net, esc, f) {
      forall i | 0 <= i < k ensures SeenRight(net, esc, seen, |items|, i) {
        assert FateOf(seen, |items| + i)
            == if GivenBack(st.stock, items, net, esc, f, i) then FateOf(net, |items| + i) else RequestLost;
      }
      PyRestoreIsRestore(t, items, 0, k, net, esc, seen, |items|);
    } else {
      LostRestoresNothing(t, items, 0, k, seen, |items|);
    }
  }

  /** A rejected order leaves the stock as it was if and only if the decrement it stopped at had no effect and every
      item taken before was given back. An error that the service does not catch, from the product client or from the
      database, gives nothing back. */
  lemma {:induction false} FailedPyCreateIsNoOpIff(st: Store, items: seq<Item>, net: Network, esc: Escapes, f: PyFault)
    requires ValidTable(st.stock) && Sane(items) && PyCreate(st, items, net, esc, f).1.Rejected?
    ensures var st' := PyCreate(st, items, net, esc, f).0;
            var (u, k) := Reserve(st.stock, items, 0, net);
            && st'.orders == st.orders && st'.list == st.list
            && (st' == st <==>
                && (k < |items| ==> AfterFailedDecrement(u, items, k, net) == u)
                && (forall i :: 0 <= i < k ==> GivenBack(st.stock, items, net, esc, f, i)))
  {
    var seen := Seen(st.stock, items, net, esc, f);
    RejectedStock(st, items, net, esc, f);
    StockAfterFailureIff(st.stock, items, seen, PyCreate(st, items, net, esc, f).0.stock);
    forall i | 0 <= i < |items|
      ensures RefundLost(seen, |items|, i) <==> !GivenBack(st.stock, items, net, esc, f, i)
    {
    }
  }

  /** It happens: the second of two decrements is lost in transport, and the first item stays taken. */
  lemma {:induction false} TransportErrorKeepsStock(st: Store, items: seq<Item>, f: PyFault)
    requires ValidTable(st.stock) && Sane(items) && |items| == 2
    requires items[0].product in st.stock && st.stock[items[0].product] >= items[0].quantity
    ensures var net, esc := [Answered, RequestLost], [false, true];
            && PyCreate(st, items, net, esc, f).1.Rejected?
            && PyCreate(st, items, net, esc, f).0 != st
            && Create(st, items, net, NoTxFault).0 == st
  {
    var net, esc := [Answered, RequestLost], [false, true];
    LockedUpdateIsExact(st.stock, items[0].product, Wrap(-items[0].quantity), NoFault);
    var u := Rpc(st.stock, items[0].product, Wrap(-items[0].quantity), Answered).0;
    assert Reserve(u, items, 1, net) == (u, 1);
    assert Reserve(st.stock, items, 0, net) == (u, 1);
    FailedPyCreateIsNoOpIff(st, items, net, esc, f);
    assert !GivenBack(st.stock, items, net, esc, f, 0);
    FailedCreateIsNoOpIff(st, items, net, NoTxFault);
    assert CompensationsThrough(st.stock, items, net);
  }

  // ----- Money -----

  lemma {:induction false} PyTotalIsExact(items: seq<Item>)
    ensures PyTotal(items) == Sum(items, ExactSubtotal())
  {
    if items != [] {
      PyTotalIsExact(items[..|items| - 1]);
    }
  }

  /** Losing more increments leaves less stock, and as much only if no more are lost. */
  lemma {:induction false} MoreLostRefunds(items: seq<Item>, j: nat, n: nat, net: Network, net': Network, base: nat,
                                          p: ProductId)
    requires Sane(items) && j <= n <= |items|
    requires forall i :: j <= i < n && RefundLost(net, base, i) ==> RefundLost(net', base, i)
    ensures LostRefunds(items, j, n, net, base, p) <= LostRefunds(items, j, n, net', base, p)
    ensures LostRefunds(items, j, n, net, base, p) == LostRefunds(items, j, n, net', base, p) <==>
            forall i :: j <= i < n && items[i].product == p && RefundLost(net', base, i) ==> RefundLost(net, base, i)
    decreases n - j
  {
    if j < n {
      MoreLostRefunds(items, j + 1, n, net, net', base, p);
    }
  }

  /** Where a reservation fails, the two services leave the same stock if and only if the Python service gives back
      every item that the Go service does. */
  lemma {:induction false} SameRefusalIff(st: Store, items: seq<Item>, net: Network, esc: Escapes, f: PyFault)
    requires ValidTable(st.stock) && Sane(items) && !ReserveAll(st.stock, items, net).1
    ensures PyCreate(st, items, net, esc, f).0.stock == ReserveAll(st.stock, items, net).0 <==>
            forall i :: 0 <= i < Reserve(st.stock, items, 0, net).1 && !RefundLost(net, |items|, i) ==>
              GivenBack(st.stock, items, net, esc, f, i)
  {
    var t, seen := st.stock, Seen(st.stock, items, net, esc, f);
    var (u, k) := Reserve(t, items, 0, net);
    var py, go := PyCreate(st, items, net, esc, f).0.stock, ReserveAll(t, items, net).0;
    RejectedStock(st, items, net, esc, f);
    forall i | 0 <= i < |items|
      ensures RefundLost(seen, |items|, i) <==> !GivenBack(t, items, net, esc, f, i)
    {
    }
    forall p
      ensures go.Keys == py.Keys == t.Keys
      ensures p in t ==>
        (py[p] == go[p] <==>
         forall i :: 0 <= i < k && items[i].product == p && RefundLost(seen, |items|, i) ==>
           RefundLost(net, |items|, i))
    {
      StockAfterFailureLaw(t, items, net, go, p);
      StockAfterFailureLaw(t, items, seen, py, p);
      MoreLostRefunds(items, 0, k, net, seen, |items|, p);
    }
    if i :| 0 <= i < k && !RefundLost(net, |items|, i) && RefundLost(seen, |items|, i) {
      ReserveTakesAll(t, items, net);
      assert items[i].product in t;
      assert py[items[i].product] != go[items[i].product];
    } else {
      assert forall p :: p in t ==> py[p] == go[p];
    }
  }

  /** Both services agree: within the API's limits the Python path does to stock and tables what the Go path does in
      two calls, create and confirm, if and only if the order is stored or every item that the Go service gives back
      is given back. With the gRPC client that is always so. */
  lemma {:induction false} PythonAgreesWithGoIff(st: Store, items: seq<Item>, net: Network, esc: Escapes)
    requires ValidTable(st.stock) && WithinLimits(items)
    ensures PyCreate(st, items, net, esc, NoPyFault).0 == SyncStep(st, items, net) <==>
            (|| ReserveAll(st.stock, items, net).1
             || (forall i :: 0 <= i < Reserve(st.stock, items, 0, net).1 && !RefundLost(net, |items|, i) ==>
                   GivenBack(st.stock, items, net, esc, NoPyFault, i)))
    ensures esc == [] ==> PyCreate(st, items, net, esc, NoPyFault).0 == SyncStep(st, items, net)
  {
    MoneyIsExact(items);
    PyTotalIsExact(items);
    forall k | 0 <= k < |items| ensures PyLineAccepted(items[k]) {
      LineFits(items[k]);
    }
    assert esc == [] ==> forall j: nat :: !Ends(net, esc, |items|, j);
    if !ReserveAll(st.stock, items, net).1 {
      SameRefusalIff(st, items, net, esc, NoPyFault);
    }
  }

  /** Beyond them: the tables take the money of the Python service exactly when they take that of the Go service and
      none of it wrapped. */
  lemma {:induction false} PythonMoneyIffGoMoneyIsExact(items: seq<Item>)
    requires forall k :: 0 <= k < |items| ==> items[k].quantity >= 1 && items[k].price >= 0
    ensures PyRowsAccepted(items) <==>
            (&& RowsAccepted(items) && Total(items) == Sum(items, ExactSubtotal())
             && (forall k :: 0 <= k < |items| ==> Subtotal(items[k]) == items[k].price * items[k].quantity))
  {
    PyTotalIsExact(items);
    if PyRowsAccepted(items) {
      ExactPrefixes(items);
    }
  }

  /** Sums of non-negative terms that fit at the end fit all along. */
  lemma {:induction false} ExactPrefixes(items: seq<Item>)
    requires PyTotal(items) <= MAX && forall k :: 0 <= k < |items| ==> PyLineAccepted(items[k])
    ensures Total(items) == PyTotal(items) >= 0
  {
    if items != [] {
      var n := |items| - 1;
      assert PyLineAccepted(items[n]);
      ExactPrefixes(items[..n]);
    }
  }
}
