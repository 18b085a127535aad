/** The order service run one call at a time, with every failure point as a parameter: prices, stock reservation
    with compensation, the insert transaction, the Redis list and the worker behind it. */
module OrderService {
  import opened Common
  import opened Int32
  import opened ProductDb
  import opened Pricing

  datatype Error = ProductNotFound | DealNotFound | InvalidDeal | DealNotActive | StockError | CreateFailed
                 | QueueNotInitialized | QueueFailed | OrderNotFound | Forbidden | CannotConfirm | ConfirmFailed
                 | CannotCancel | CancelFailed | QueryFailed

  // ----- Prices -----

  datatype ItemRequest = ItemRequest(product: ProductId, deal: Option<nat>, quantity: int)

  datatype Deal = Deal(product: ProductId, price: int, active: bool)

  /** What the product service answers to GetProduct and GetDeal. */
  datatype Catalog = Catalog(prices: map<ProductId, int>, deals: map<nat, Deal>)

  datatype Priced = Priced(items: seq<Item>) | Unpriced(error: Error)

  datatype Quote = Quoted(item: Item) | NotQuoted(error: Error)

  function PriceOne(c: Catalog, r: ItemRequest): Quote {
    match r.deal
    case Some(d) =>
      if d !in c.deals then NotQuoted(DealNotFound)
      else if c.deals[d].product != r.product then NotQuoted(InvalidDeal)
      else if !c.deals[d].active then NotQuoted(DealNotActive)
      else Quoted(Item(r.product, r.quantity, c.deals[d].price))
    case None =>
      if r.product !in c.prices then NotQuoted(ProductNotFound)
      else Quoted(Item(r.product, r.quantity, c.prices[r.product]))
  }

  /** The first item that cannot be priced stops the order before any stock is touched. */
  function PriceAll(c: Catalog, rs: seq<ItemRequest>): Priced {
    if rs == [] then Priced([])
    else
      match PriceAll(c, rs[..|rs| - 1])
      case Unpriced(e) => Unpriced(e)
      case Priced(items) =>
        match PriceOne(c, rs[|rs| - 1])
        case NotQuoted(e) => Unpriced(e)
        case Quoted(last) => Priced(items + [last])
  }

  /** What the service asks of a request: a plain one names a known product, one for a deal an active deal on that very
      product. */
  predicate Priceable(c: Catalog, r: ItemRequest) {
    match r.deal
    case None => r.product in c.prices
    case Some(d) => d in c.deals && c.deals[d].product == r.product && c.deals[d].active
  }

  /** What is wrong with a request that is refused with each error. */
  predicate RefusedWith(c: Catalog, r: ItemRequest, e: Error) {
    match e
    case ProductNotFound => r.deal.None? && r.product !in c.prices
    case DealNotFound => r.deal.Some? && r.deal.value !in c.deals
    case InvalidDeal => r.deal.Some? && r.deal.value in c.deals && c.deals[r.deal.value].product != r.product
    case DealNotActive => && r.deal.Some? && r.deal.value in c.deals && c.deals[r.deal.value].product == r.product
                          && !c.deals[r.deal.value].active
    case _ => false
  }

  /** Request `k` is the first that cannot be priced, and `e` says why. */
  predicate FirstRefused(c: Catalog, rs: seq<ItemRequest>, k: nat, e: Error) {
    && k < |rs| && RefusedWith(c, rs[k], e)
    && (forall j :: 0 <= j < k ==> Priceable(c, rs[j]))
  }

  /** A line has the product and the quantity asked for, at the price of the deal if one is named and of the product
      otherwise. */
  predicate LineAsAsked(c: Catalog, r: ItemRequest, i: Item) {
    && i.product == r.product && i.quantity == r.quantity
    && (r.deal.None? ==> r.product in c.prices && i.price == c.prices[r.product])
    && (r.deal.Some? ==> r.deal.value in c.deals && i.price == c.deals[r.deal.value].price)
  }

  predicate AsAsked(c: Catalog, rs: seq<ItemRequest>, items: seq<Item>) {
    |items| == |rs| && forall k :: 0 <= k < |rs| ==> LineAsAsked(c, rs[k], items[k])
  }

  /** Pricing succeeds if and only if every request can be priced, and then it is line for line what was asked for;
      otherwise the error is that of the first request that cannot. */
  lemma {:induction false} PricedAsAskedIff(c: Catalog, rs: seq<ItemRequest>)
    ensures PriceAll(c, rs).Priced? <==> forall k :: 0 <= k < |rs| ==> Priceable(c, rs[k])
    ensures PriceAll(c, rs).Priced? ==> AsAsked(c, rs, PriceAll(c, rs).items)
    ensures PriceAll(c, rs).Unpriced? ==> exists k :: FirstRefused(c, rs, k, PriceAll(c, rs).error)
  {
    if rs != [] {
      var n := |rs| - 1;
      PricedAsAskedIff(c, rs[..n]);
      if PriceAll(c, rs[..n]).Unpriced? {
        var k :| FirstRefused(c, rs[..n], k, PriceAll(c, rs[..n]).error);
        assert FirstRefused(c, rs, k, PriceAll(c, rs).error);
      } else {
        var items := PriceAll(c, rs[..n]).items;
        assert forall k :: 0 <= k < n ==> Priceable(c, rs[..n][k]) && LineAsAsked(c, rs[..n][k], items[k]);
        if PriceAll(c, rs).Unpriced? {
          assert FirstRefused(c, rs, n, PriceAll(c, rs).error);
        }
      }
    }
  }

  lemma {:induction false} FirstErrorStops(c: Catalog, rs: seq<ItemRequest>, k: nat)
    requires k <= |rs| && PriceAll(c, rs[..k]).Unpriced?
    ensures PriceAll(c, rs) == PriceAll(c, rs[..k])
    decreases |rs|
  {
    if k == |rs| {
      assert rs[..k] == rs;
    } else {
      assert rs[..|rs| - 1][..k] == rs[..k];
      FirstErrorStops(c, rs[..|rs| - 1], k);
    }
  }

  // ----- Remote stock updates -----

  /** What becomes of one remote call: answered, lost before it took effect, or applied with its reply lost. */
  datatype Fate = Answered | RequestLost | ReplyLost

  /** The stock afterwards, and whether the caller sees success. */
  function Rpc(t: StockTable, p: ProductId, delta: int, fate: Fate): (StockTable, bool) {
    if fate.RequestLost? then (t, false)
    else (LockedUpdate(t, p, delta, NoFault).0, fate.Answered? && LockedUpdate(t, p, delta, NoFault).1.Updated?)
  }

  /** The fates of the remote updates of one call, in order; those past the end are answered. */
  type Network = seq<Fate>

  function FateOf(net: Network, i: nat): Fate {
    if i < |net| then net[i] else Answered
  }

  /** Decrement items `k`, `k + 1`, ... until one fails: the stock before the failing one, and its index. */
  function Reserve(t: StockTable, items: seq<Item>, k: nat, net: Network): (r: (StockTable, nat))
    requires k <= |items|
    ensures k <= r.1 <= |items|
    decreases |items| - k
  {
    if k == |items| then (t, k)
    else
      var r := Rpc(t, items[k].product, Wrap(-items[k].quantity), FateOf(net, k));
      if r.1 then Reserve(r.0, items, k + 1, net) else (t, k)
  }

  /** Increment items `j` up to `n`, whatever each call answers. */
  function Restore(t: StockTable, items: seq<Item>, j: nat, n: nat, net: Network, base: nat): StockTable
    requires j <= n <= |items|
    decreases n - j
  {
    if j == n then t
    else Restore(Rpc(t, items[j].product, items[j].quantity, FateOf(net, base + j)).0, items, j + 1, n, net, base)
  }

  // ----- Stored and queued orders -----

  /** A stored order with its items, ids and timestamps left aside. */
  datatype Row = Row(items: seq<Item>, total: int, status: Status, cancelled: bool)

  /** `list` is the Redis list: pushed at its head, popped at its tail. */
  datatype Store = Store(stock: StockTable, orders: seq<Row>, list: seq<seq<Item>>)

  datatype Outcome = Accepted(items: seq<Item>, total: int, status: string) | Rejected(error: Error)

  /** Where the insert transaction can fail besides a violated CHECK. */
  datatype TxFault = NoTxFault | AtBegin | AtOrder | AtItem(j: nat) | AtCommit

  /** Where the transaction of a confirm or cancel can fail. */
  datatype RowFault = NoRowFault | AtRowBegin | AtRowLock | AtRowItems | AtRowUpdate | AtRowCommit

  /** Who calls, and what fails: whether the caller owns the order, and where its transaction breaks. */
  datatype RowCall = RowCall(owner: bool, fault: RowFault)

  /** The owner's call with nothing failing. */
  const PLAIN := RowCall(true, NoRowFault)

  predicate TxSucceeds(items: seq<Item>, f: TxFault) {
    RowsAccepted(items) && (f.NoTxFault? || (f.AtItem? && f.j >= |items|))
  }

  // ----- What each call does -----

  function AfterFailedDecrement(t: StockTable, items: seq<Item>, k: nat, net: Network): StockTable
    requires k < |items|
  {
    Rpc(t, items[k].product, Wrap(-items[k].quantity), FateOf(net, k)).0
  }

  /** Reserve all items, or give back those taken before the one that failed. */
  function ReserveAll(t: StockTable, items: seq<Item>, net: Network): (StockTable, bool) {
    var r := Reserve(t, items, 0, net);
    if r.1 == |items| then (r.0, true)
    else (Restore(AfterFailedDecrement(r.0, items, r.1, net), items, 0, r.1, net, |items|), false)
  }

  function RestoreAll(t: StockTable, items: seq<Item>, net: Network, base: nat): StockTable {
    Restore(t, items, 0, |items|, net, base)
  }

  function Create(st: Store, items: seq<Item>, net: Network, f: TxFault): (Store, Outcome) {
    var r := ReserveAll(st.stock, items, net);
    if !r.1 then
      (st.(stock := r.0), Rejected(StockError))
    else if TxSucceeds(items, f) then
      (st.(stock := r.0, orders := st.orders + [Row(items, Total(items), Pending, false)]),
       Accepted(items, Total(items), "pending"))
    else
      (st.(stock := RestoreAll(r.0, items, net, |items|)), Rejected(CreateFailed))
  }

  function Async(st: Store, items: seq<Item>, net: Network, pushed: bool): (Store, Outcome) {
    var r := ReserveAll(st.stock, items, net);
    if !r.1 then
      (st.(stock := r.0), Rejected(StockError))
    else if pushed then
      (st.(stock := r.0, list := [items] + st.list), Accepted(items, Total(items), "processing"))
    else
      (st.(stock := RestoreAll(r.0, items, net, |items|)), Rejected(QueueFailed))
  }

  /** The worker takes the oldest request and stores it confirmed, or drops it. */
  function Process(st: Store, f: TxFault): Store {
    if st.list == [] then st
    else
      var items := st.list[|st.list| - 1];
      var rest := st.(list := st.list[..|st.list| - 1]);
      if TxSucceeds(items, f) then rest.(orders := st.orders + [Row(items, Total(items), Confirmed, false)]) else rest
  }

  function Drain(st: Store): (r: Store)
    decreases |st.list|
  {
    if st.list == [] then st else Drain(Process(st, NoTxFault))
  }

  /** One turn of the worker's loop: it takes an order, or its wait for one ends without; and the service may have
      pushed one meanwhile. */
  datatype Turn = Take(fault: TxFault) | NoOrder | Push(items: seq<Item>)

  function Turned(st: Store, t: Turn): Store {
    match t
    case Take(f) => Process(st, f)
    case NoOrder => st
    case Push(items) => st.(list := [items] + st.list)
  }

  function Work(st: Store, turns: seq<Turn>): Store
    decreases |turns|
  {
    if turns == [] then st else Work(Turned(st, turns[0]), turns[1..])
  }

  /** Lock, check owner and status, write, commit: the first check that fails decides the error. */
  function ConfirmRow(st: Store, r: nat, call: RowCall): (Store, Option<Error>) {
    if call.fault.AtRowBegin? then (st, Some(ConfirmFailed))
    else if call.fault.AtRowLock? then (st, Some(QueryFailed))
    else if r >= |st.orders| then (st, Some(OrderNotFound))
    else if !call.owner then (st, Some(Forbidden))
    else if st.orders[r].status != Pending then (st, Some(CannotConfirm))
    else if call.fault.AtRowUpdate? || call.fault.AtRowCommit? then (st, Some(ConfirmFailed))
    else (st.(orders := st.orders[r := st.orders[r].(status := Confirmed)]), None)
  }

  function CancelRow(st: Store, r: nat, call: RowCall, net: Network): (Store, Option<Error>) {
    if call.fault.AtRowBegin? then (st, Some(CancelFailed))
    else if call.fault.AtRowLock? then (st, Some(QueryFailed))
    else if r >= |st.orders| then (st, Some(OrderNotFound))
    else if !call.owner then (st, Some(Forbidden))
    else if st.orders[r].status !in {Pending, Confirmed} then (st, Some(CannotCancel))
    else if call.fault.AtRowItems? then (st, Some(QueryFailed))
    else if call.fault.AtRowUpdate? || call.fault.AtRowCommit? then (st, Some(CancelFailed))
    else
      var o := st.orders[r];
      (Store(RestoreAll(st.stock, o.items, net, 0),
             st.orders[r := o.(status := Cancelled, cancelled := true)], st.list), None)
  }

  /** A confirm succeeds if and only if its owner asks for a pending order and its transaction gets through, and then
      the status of that one row changes and nothing else; every refusal changes nothing and has its own cause. */
  lemma {:induction false} ConfirmIff(st: Store, r: nat, call: RowCall)
    ensures var (st', error) := ConfirmRow(st, r, call);
            var reaches := !call.fault.AtRowBegin? && !call.fault.AtRowLock?;
            var mine := reaches && r < |st.orders| && call.owner;
            && (error == None <==>
                  mine && st.orders[r].status == Pending && !call.fault.AtRowUpdate? && !call.fault.AtRowCommit?)
            && (error == Some(OrderNotFound) <==> reaches && r >= |st.orders|)
            && (error == Some(Forbidden) <==> reaches && r < |st.orders| && !call.owner)
            && (error == Some(CannotConfirm) <==> mine && st.orders[r].status != Pending)
            && (error == Some(QueryFailed) <==> call.fault.AtRowLock?)
            && (error.Some? ==> error.value in {OrderNotFound, Forbidden, CannotConfirm, QueryFailed, ConfirmFailed})
            && (error.Some? ==> st' == st)
            && st'.stock == st.stock && st'.list == st.list && |st'.orders| == |st.orders|
            && (forall q :: 0 <= q < |st.orders| && q != r ==> st'.orders[q] == st.orders[q])
            && (error == None ==> st'.orders[r] == st.orders[r].(status := Confirmed))
  {
  }

  /** The same for a cancel, which also confirmed orders allow, and which gives the order's stock back. */
  lemma {:induction false} CancelIff(st: Store, r: nat, call: RowCall, net: Network)
    ensures var (st', error) := CancelRow(st, r, call, net);
            var reaches := !call.fault.AtRowBegin? && !call.fault.AtRowLock?;
            var mine := reaches && r < |st.orders| && call.owner;
            var open := mine && (st.orders[r].status == Pending || st.orders[r].status == Confirmed);
            && (error == None <==> open && call.fault.NoRowFault?)
            && (error == Some(OrderNotFound) <==> reaches && r >= |st.orders|)
            && (error == Some(Forbidden) <==> reaches && r < |st.orders| && !call.owner)
            && (error == Some(CannotCancel) <==> mine && !open)
            && (error == Some(QueryFailed) <==> call.fault.AtRowLock? || (open && call.fault.AtRowItems?))
            && (error.Some? ==> error.value in {OrderNotFound, Forbidden, CannotCancel, QueryFailed, CancelFailed})
            && (error.Some? ==> st' == st)
            && st'.list == st.list && |st'.orders| == |st.orders|
            && (forall q :: 0 <= q < |st.orders| && q != r ==> st'.orders[q] == st.orders[q])
            && (error == None ==> st'.orders[r] == st.orders[r].(status := Cancelled, cancelled := true))
  {
  }

  // ----- The service itself -----

  class Service {
    var stock: StockTable
    var orders: seq<Row>
    var list: seq<seq<Item>>
    const hasQueue: bool

    constructor (stock: StockTable, hasQueue: bool)
      ensures View() == Store(stock, [], []) && this.hasQueue == hasQueue
    {
      this.hasQueue := hasQueue;
      this.stock := stock;
      orders := [];
      list := [];
    }

    ghost function View(): Store
      reads this
    {
      Store(stock, orders, list)
    }

    method PriceItems(c: Catalog, rs: seq<ItemRequest>) returns (r: Priced, total: int)
      ensures r == PriceAll(c, rs)
      ensures r.Priced? <==> forall k :: 0 <= k < |rs| ==> Priceable(c, rs[k])
      ensures r.Priced? ==> AsAsked(c, rs, r.items) && total == Total(r.items)
      ensures r.Unpriced? ==> exists k :: FirstRefused(c, rs, k, r.error)
    {
      PricedAsAskedIff(c, rs);
      var items: seq<Item> := [];
      total := 0;
      for k := 0 to |rs|
        invariant PriceAll(c, rs[..k]) == Priced(items)
        invariant total == Total(items)
      {
        assert rs[..k + 1][..k] == rs[..k];
        match PriceOne(c, rs[k]) {
          case NotQuoted(e) =>
            FirstErrorStops(c, rs, k + 1);
            return Unpriced(e), 0;
          case Quoted(line) =>
            assert (items + [line])[..|items|] == items;
            total := Wrap(total + Subtotal(line));
            items := items + [line];
        }
      }
      assert rs[..|rs|] == rs;
      r := Priced(items);
    }

    /** Decrements item by item; on a failure the items taken so far are given back. */
    method ReserveStock(items: seq<Item>, net: Network) returns (ok: bool)
      modifies this`stock
      ensures (stock, ok) == ReserveAll(old(stock), items, net)
    {
      var k := 0;
      while k < |items|
        invariant k <= |items|
        invariant Reserve(stock, items, k, net) == Reserve(old(stock), items, 0, net)
      {
        var r := Rpc(stock, items[k].product, Wrap(-items[k].quantity), FateOf(net, k));
        if !r.1 {
          assert Reserve(old(stock), items, 0, net) == (stock, k);
          stock := r.0;
          RestoreStock(items, k, net, |items|);
          return false;
        }
        stock := r.0;
        k := k + 1;
      }
      return true;
    }

    /** The compensation loop. */
    method RestoreStock(items: seq<Item>, n: nat, net: Network, base: nat)
      requires n <= |items|
      modifies this`stock
      ensures stock == Restore(old(stock), items, 0, n, net, base)
    {
      for j := 0 to n
        invariant Restore(stock, items, j, n, net, base) == Restore(old(stock), items, 0, n, net, base)
      {
        stock := Rpc(stock, items[j].product, items[j].quantity, FateOf(net, base + j)).0;
      }
    }

    /** The insert transaction: order row, then item rows, then commit; nothing is visible unless all succeed. */
    method InsertOrder(items: seq<Item>, total: int, status: Status, f: TxFault) returns (ok: bool)
      requires total == Total(items)
      modifies this`orders
      ensures ok == TxSucceeds(items, f)
      ensures ok <==>
              && total >= 0
              && (forall k :: 0 <= k < |items| ==>
                    items[k].quantity >= 1 && items[k].price >= 0 && Subtotal(items[k]) >= 0)
              && !f.AtBegin? && !f.AtOrder? && !f.AtCommit? && (f.AtItem? ==> f.j >= |items|)
      ensures orders == if ok then old(orders) + [Row(items, Total(items), status, false)] else old(orders)
    {
      if f.AtBegin? || f.AtOrder? || total < 0 {
        return false;
      }
      var created: seq<Item> := [];
      for j := 0 to |items|
        invariant created == items[..j]
        invariant !(f.AtItem? && f.j < j)
        invariant forall i :: 0 <= i < j ==> LineAccepted(items[i])
      {
        if f == AtItem(j) || !LineAccepted(items[j]) {
          return false;
        }
        created := created + [items[j]];
      }
      if f.AtCommit? {
        return false;
      }
      assert items[..|items|] == items;
      orders := orders + [Row(created, total, status, false)];
      return true;
    }

    method CreateOrder(c: Catalog, rs: seq<ItemRequest>, net: Network, f: TxFault) returns (o: Outcome)
      modifies this
      ensures match PriceAll(c, rs)
              case Unpriced(e) => View() == old(View()) && o == Rejected(e)
              case Priced(items) => (View(), o) == Create(old(View()), items, net, f)
      ensures o.Accepted? ==>
              && AsAsked(c, rs, o.items) && o.total == Total(o.items) && o.status == "pending"
              && list == old(list) && orders == old(orders) + [Row(o.items, o.total, Pending, false)]
      ensures (exists k :: 0 <= k < |rs| && !Priceable(c, rs[k])) ==>
              View() == old(View()) && o.Rejected? && exists k :: FirstRefused(c, rs, k, o.error)
    {
      var priced, total := PriceItems(c, rs);
      if priced.Unpriced? {
        return Rejected(priced.error);
      }
      var items := priced.items;
      var reserved := ReserveStock(items, net);
      if !reserved {
        return Rejected(StockError);
      }
      var inserted := InsertOrder(items, total, Pending, f);
      if !inserted {
        RestoreStock(items, |items|, net, |items|);
        return Rejected(CreateFailed);
      }
      return Accepted(items, total, "pending");
    }

    method AsyncCreateOrder(c: Catalog, rs: seq<ItemRequest>, net: Network, pushed: bool) returns (o: Outcome)
      modifies this
      ensures !hasQueue ==> View() == old(View()) && o == Rejected(QueueNotInitialized)
      ensures hasQueue ==>
              match PriceAll(c, rs)
              case Unpriced(e) => View() == old(View()) && o == Rejected(e)
              case Priced(items) => (View(), o) == Async(old(View()), items, net, pushed)
      ensures o.Accepted? ==>
              && AsAsked(c, rs, o.items) && o.total == Total(o.items) && o.status == "processing"
              && orders == old(orders) && list == [o.items] + old(list)
      ensures hasQueue && (exists k :: 0 <= k < |rs| && !Priceable(c, rs[k])) ==>
              View() == old(View()) && o.Rejected? && exists k :: FirstRefused(c, rs, k, o.error)
    {
      if !hasQueue {
        return Rejected(QueueNotInitialized);
      }
      var priced, total := PriceItems(c, rs);
      if priced.Unpriced? {
        return Rejected(priced.error);
      }
      var items := priced.items;
      var reserved := ReserveStock(items, net);
      if !reserved {
        return Rejected(StockError);
      }
      if !pushed {
        RestoreStock(items, |items|, net, |items|);
        return Rejected(QueueFailed);
      }
      list := [items] + list;
      return Accepted(items, total, "processing");
    }

    /** One turn of the worker: it recomputes the total from the request. */
    method ProcessOrder(f: TxFault)
      requires list != []
      modifies this
      ensures View() == Process(old(View()), f)
    {
      var items := list[|list| - 1];
      list := list[..|list| - 1];
      var total := 0;
      for k := 0 to |items|
        invariant total == Total(items[..k])
      {
        assert items[..k + 1][..k] == items[..k];
        total := Wrap(total + Subtotal(items[k]));
      }
      assert items[..|items|] == items;
      var _ := InsertOrder(items, total, Confirmed, f);
    }

    /** The worker's loop for as long as it runs. */
    method Start(turns: seq<Turn>)
      modifies this
      ensures View() == Work(old(View()), turns)
    {
      for k := 0 to |turns|
        invariant Work(View(), turns[k..]) == Work(old(View()), turns)
      {
        match turns[k] {
          case Take(f) =>
            if list != [] {
              ProcessOrder(f);
            }
          case NoOrder =>
          case Push(items) =>
            list := [items] + list;
        }
        assert turns[k..][1..] == turns[k + 1..];
      }
    }

    method ConfirmOrder(r: nat, call: RowCall) returns (error: Option<Error>)
      modifies this`orders
      ensures (View(), error) == ConfirmRow(old(View()), r, call)
    {
      if call.fault.AtRowBegin? {
        return Some(ConfirmFailed);
      }
      if call.fault.AtRowLock? {
        return Some(QueryFailed);
      }
      if r >= |orders| {
        return Some(OrderNotFound);
      }
      if !call.owner {
        return Some(Forbidden);
      }
      if orders[r].status != Pending {
        return Some(CannotConfirm);
      }
      var confirmed := orders[r].(status := Confirmed);
      if call.fault.AtRowUpdate? || call.fault.AtRowCommit? {
        return Some(ConfirmFailed);
      }
      orders := orders[r := confirmed];
      return None;
    }

    method CancelOrder(r: nat, call: RowCall, net: Network) returns (error: Option<Error>)
      modifies this
      ensures (View(), error) == CancelRow(old(View()), r, call, net)
    {
      if call.fault.AtRowBegin? {
        return Some(CancelFailed);
      }
      if call.fault.AtRowLock? {
        return Some(QueryFailed);
      }
      if r >= |orders| {
        return Some(OrderNotFound);
      }
      if !call.owner {
        return Some(Forbidden);
      }
      if orders[r].status != Pending && orders[r].status != Confirmed {
        return Some(CannotCancel);
      }
      if call.fault.AtRowItems? {
        return Some(QueryFailed);
      }
      var items := orders[r].items;
      var cancelled := orders[r].(status := Cancelled, cancelled := true);
      if call.fault.AtRowUpdate? || call.fault.AtRowCommit? {
        return Some(CancelFailed);
      }
      orders := orders[r := cancelled];
      RestoreStock(items, |items|, net, 0);
      return None;
    }
  }
}
