/** The parts inside the order system: every call of the order service, run by itself, is a sequence of the system's
    steps that ends in the same stock on sale, rows and queue, with deals open or not; and the system's stock channel
    is the stock queue. */
module SagaSimulation {
  import opened Common
  import opened Int32
  import opened ProductDb
  import opened Pricing
  import opened SagaInvariant
  import opened OrderFlows
  import opened SagaSystem
  import opened SagaFrame
  import opened SagaRuns
  import OS = OrderService
  import SQ = StockQueue

  // ----- The system as the service sees it -----

  function RowOf(o: OrderRow): OS.Row {
    OS.Row(o.items, o.total, o.status, o.cancelledBy.Some?)
  }

  function RowsOf(orders: seq<OrderRow>): seq<OS.Row> {
    seq(|orders|, r requires 0 <= r < |orders| => RowOf(orders[r]))
  }

  function ListOf(list: seq<OrderRequest>): seq<seq<Item>> {
    seq(|list|, k requires 0 <= k < |list| => list[k].items)
  }

  /** The stock on sale: counters of open deals, rows otherwise. */
  function OnSaleOf(db: StockTable, redis: StockTable): StockTable {
    map p | p in db :: if p in redis then redis[p] else db[p]
  }

  function OnSale(s: State): StockTable {
    OnSaleOf(s.db, s.redis)
  }

  function View(s: State): OS.Store {
    OS.Store(OnSale(s), RowsOf(s.orders), ListOf(s.list))
  }

  /** Nothing is in the channel or in the worker, and counters are `int32`. Deals may be open. */
  ghost predicate Idle(s: State) {
    s.channel == [] && s.worker == [] && StockOk(s.db, s.redis) && ValidTable(OnSale(s))
  }

  /** Everything but stock, calls and remote updates is the same. */
  predicate SameOrders(s: State, t: State) {
    t.orders == s.orders && t.list == s.list && t.accepted == s.accepted && t.finished == s.finished
  }

  // ----- One remote update -----

  /** The item whose update saga `g` sends next, and the update. */
  function NextItem(x: Saga): Item
    requires (x.phase.Reserving? && x.hi < |x.items|) || (x.phase.Restoring? && x.lo < x.hi <= |x.items|)
  {
    if x.phase.Reserving? then x.items[x.hi] else x.items[x.lo]
  }

  function NextDelta(x: Saga): int
    requires (x.phase.Reserving? && x.hi < |x.items|) || (x.phase.Restoring? && x.lo < x.hi <= |x.items|)
  {
    if x.phase.Reserving? then Wrap(-NextItem(x).quantity) else NextItem(x).quantity
  }

  /** The saga after its update, which it saw succeed or not. */
  function Updated1(x: Saga, ok: bool): Saga {
    if x.phase.Restoring? then x.(lo := x.lo + 1)
    else if ok then x.(hi := x.hi + 1) else x.(phase := Restoring)
  }

  /** The steps between sending and returning, by what becomes of the update, `HasStock` being answered. */
  function Remote(hot: bool, c: nat, fate: OS.Fate): seq<Event> {
    if fate.RequestLost? then [Route(c, hot), FailCall(c)]
    else if hot then [Route(c, true), RunRedis(c)]
    else [Route(c, false), Admit(c), RunWorker(NoFault)]
  }

  /** The update does what `Rpc` does to the stock on sale. */
  ghost predicate Serves(s: State, t: State, c: nat, fate: OS.Fate)
    requires c < |s.calls|
  {
    var k := s.calls[c];
    && OnSale(t) == OS.Rpc(OnSale(s), k.product, k.delta, fate).0
    && t.redis.Keys == s.redis.Keys && t.db.Keys == s.db.Keys && ValidTable(t.db)
    && t.channel == s.channel && t.worker == s.worker && SameOrders(s, t) && t.sagas == s.sagas
    && t.calls == s.calls[c := k.(stage := Done(!fate.RequestLost?
                                               && LockedUpdate(OnSale(s), k.product, k.delta, NoFault).1.Updated?))]
  }

  /** Without a deal the row is what is on sale. */
  lemma {:induction false} RowIsOnSale(db: StockTable, redis: StockTable, p: ProductId, delta: int)
    requires p !in redis && ValidTable(db) && InRange(delta)
    ensures LockedUpdate(OnSaleOf(db, redis), p, delta, NoFault).1 == LockedUpdate(db, p, delta, NoFault).1
    ensures OnSaleOf(LockedUpdate(db, p, delta, NoFault).0, redis)
         == LockedUpdate(OnSaleOf(db, redis), p, delta, NoFault).0
    ensures ValidTable(LockedUpdate(db, p, delta, NoFault).0) && LockedUpdate(db, p, delta, NoFault).0.Keys == db.Keys
  {
    LockedUpdateIsExact(db, p, delta, NoFault);
  }

  lemma {:induction false} RowServesIt(s: State, c: nat, fate: OS.Fate) returns (t: State)
    requires Idle(s) && c < |s.calls| && s.calls[c].stage.Sent? && s.calls[c].product !in s.redis
    requires !fate.RequestLost? && InRange(s.calls[c].delta)
    ensures Takes(s, Remote(false, c, fate), t) && Serves(s, t, c, fate)
  {
    var k := s.calls[c];
    RowIsOnSale(s.db, s.redis, k.product, k.delta);
    t := RowRuns(s, c);
  }

  /** Routed to the row, admitted, served. */
  lemma {:induction false} RowRuns(s: State, c: nat) returns (t: State)
    requires s.channel == [] && c < |s.calls| && s.calls[c].stage.Sent?
    ensures Takes(s, [Route(c, false), Admit(c), RunWorker(NoFault)], t)
    ensures var k := s.calls[c];
            var r := LockedUpdate(s.db, k.product, k.delta, NoFault);
            t == s.(db := r.0, had := Recorded(s.had, r.0), calls := s.calls[c := k.(stage := Done(r.1.Updated?))])
  {
    var s1 := s.(calls := s.calls[c := s.calls[c].(stage := Queueing)]);
    var s2 := s.(calls := s.calls[c := s.calls[c].(stage := InChannel)], channel := [c]);
    t := Next(s2, RunWorker(NoFault));
    assert s1.calls[c := s2.calls[c]] == s2.calls && s2.calls[c := t.calls[c]] == s.calls[c := t.calls[c]];
    RunThrough([s, s1, s2, t], [Route(c, false), Admit(c), RunWorker(NoFault)]);
  }

  /** With a deal open the counter is what is on sale; script and INCRBY agree with the locked update on it. */
  lemma {:induction false} CounterIsOnSale(db: StockTable, redis: StockTable, p: ProductId, delta: int)
    requires p in redis && p in db && 0 <= redis[p] <= MAX && MIN < delta <= MAX && redis[p] + delta <= MAX
    ensures LockedUpdate(OnSaleOf(db, redis), p, delta, NoFault)
         == if redis[p] + delta >= 0 then (OnSaleOf(db, redis[p := redis[p] + delta]), Updated(redis[p] + delta))
            else (OnSaleOf(db, redis), Insufficient)
  {
    SignTestIsExact(redis[p], delta);
    assert OnSaleOf(db, redis)[p := redis[p] + delta] == OnSaleOf(db, redis[p := redis[p] + delta]);
  }

  lemma {:induction false} CounterServesIt(s: State, c: nat, fate: OS.Fate) returns (t: State)
    requires Idle(s) && c < |s.calls| && s.calls[c].stage.Sent? && s.calls[c].product in s.redis
    requires MIN < s.calls[c].delta <= MAX && s.redis[s.calls[c].product] + s.calls[c].delta <= MAX
    requires !fate.RequestLost?
    ensures Takes(s, Remote(true, c, fate), t) && Serves(s, t, c, fate)
  {
    var k := s.calls[c];
    assert OnSale(s)[k.product] == s.redis[k.product];
    CounterIsOnSale(s.db, s.redis, k.product, k.delta);
    t := CounterRuns(s, c);
  }

  /** Routed to the counter, served. */
  lemma {:induction false} CounterRuns(s: State, c: nat) returns (t: State)
    requires c < |s.calls| && s.calls[c].stage.Sent? && s.calls[c].product in s.redis
    requires MIN < s.calls[c].delta <= MAX
    ensures Takes(s, [Route(c, true), RunRedis(c)], t)
    ensures var k := s.calls[c];
            var n := s.redis[k.product] + k.delta;
            var ok := k.delta >= 0 || n >= 0;
            t == s.(redis := if ok then s.redis[k.product := n] else s.redis,
                    calls := s.calls[c := k.(stage := Done(ok))])
  {
    var s1 := s.(calls := s.calls[c := s.calls[c].(stage := AtRedis)]);
    t := Next(s1, RunRedis(c));
    assert s1.calls[c := t.calls[c]] == s.calls[c := t.calls[c]];
    RunThrough([s, s1, t], [Route(c, true), RunRedis(c)]);
  }

  lemma {:induction false} NobodyServesIt(s: State, c: nat, hot: bool) returns (t: State)
    requires Idle(s) && c < |s.calls| && s.calls[c].stage.Sent? && (hot <==> s.calls[c].product in s.redis)
    ensures Takes(s, Remote(hot, c, OS.RequestLost), t) && Serves(s, t, c, OS.RequestLost)
  {
    var s1 := Next(s, Route(c, hot));
    t := Next(s1, FailCall(c));
    RunThrough([s, s1, t], Remote(hot, c, OS.RequestLost));
  }

  /** A remote update does to the stock on sale what `Rpc` does, whether a deal on its product is open or not; for an
      increment of a counter, as long as the counter stays an `int32`. */
  lemma {:induction false} RemoteRuns(s: State, c: nat, fate: OS.Fate) returns (t: State)
    requires Idle(s) && c < |s.calls| && s.calls[c].stage.Sent?
    requires MIN < s.calls[c].delta <= MAX
    requires s.calls[c].product in s.redis ==> s.redis[s.calls[c].product] + s.calls[c].delta <= MAX
    ensures Takes(s, Remote(s.calls[c].product in s.redis, c, fate), t) && Serves(s, t, c, fate) && Idle(t)
  {
    var k := s.calls[c];
    LockedUpdateIsExact(OnSale(s), k.product, k.delta, NoFault);
    if fate.RequestLost? {
      t := NobodyServesIt(s, c, k.product in s.redis);
    } else if k.product in s.redis {
      t := CounterServesIt(s, c, fate);
    } else {
      t := RowServesIt(s, c, fate);
    }
    IdleFromOnSale(s, t);
  }

  /** Stock is in order where what is on sale is, and rows beneath open deals are. */
  lemma {:induction false} IdleFromOnSale(s: State, t: State)
    requires StockOk(s.db, s.redis) && ValidTable(OnSale(t)) && ValidTable(t.db)
    requires t.redis.Keys == s.redis.Keys && t.db.Keys == s.db.Keys && t.channel == [] && t.worker == []
    ensures Idle(t)
  {
    forall p | p in t.redis ensures p in t.db && t.redis[p] >= 0 {
      assert p in s.redis.Keys && p in s.db.Keys && p in OnSale(t);
    }
  }

  lemma {:induction false} SendRuns(s: State, g: nat) returns (t: State)
    requires Idle(s) && CanSend(s, g)
    ensures Takes(s, [Send(g)], t) && Idle(t) && SameOrders(s, t) && t.db == s.db && t.redis == s.redis
    ensures var x, c := s.sagas[g], |s.calls|;
            && |t.calls| == c + 1 && t.calls[c].stage.Sent?
            && t.calls[c].product == NextItem(x).product && t.calls[c].delta == NextDelta(x)
            && t.sagas == s.sagas[g := if x.phase.Reserving? then x.(call := Some(c))
                                       else x.(call := Some(c), lo := x.lo + 1)]
  {
    TakesOne(s, Send(g));
    t := Next(s, Send(g));
    assert OnSale(t) == OnSale(s);
  }

  /** The counters have room for the units of items `j..n`. */
  ghost predicate Room(s: State, items: seq<Item>, j: nat, n: nat)
    requires j <= n <= |items|
  {
    forall q :: q in s.redis ==> s.redis[q] + QuantityOf(items[j..n], q) <= MAX
  }

  /** One update of a call, from sending to returning, is one `Rpc` of the service. */
  lemma {:induction false} UpdateRuns(s: State, g: nat, fate: OS.Fate) returns (evs: seq<Event>, t: State)
    requires Idle(s) && CanSend(s, g) && 1 <= NextItem(s.sagas[g]).quantity <= MAX
    requires var i := NextItem(s.sagas[g]);
             s.sagas[g].phase.Restoring? && i.product in s.redis ==> s.redis[i.product] + i.quantity <= MAX
    ensures Takes(s, evs, t)
    ensures var x := s.sagas[g];
            var r := OS.Rpc(OnSale(s), NextItem(x).product, NextDelta(x), fate);
            && OnSale(t) == r.0 && Idle(t) && SameOrders(s, t) && t.redis.Keys == s.redis.Keys
            && t.sagas == s.sagas[g := Updated1(x, r.1)]
  {
    var x, c := s.sagas[g], |s.calls|;
    var r := OS.Rpc(OnSale(s), NextItem(x).product, NextDelta(x), fate);
    var s1 := SendRuns(s, g);
    assert OnSale(s1) == OnSale(s);
    assert NextItem(x).product in s.redis ==> s.redis[NextItem(x).product] == OnSale(s)[NextItem(x).product];
    var s2 := RemoteRuns(s1, c, fate);
    var remote := Remote(NextItem(x).product in s.redis, c, fate);
    TakesMore(s, [Send(g)], s1, remote, s2);
    t := ReturnRuns(s2, g, c, r.1);
    evs := ([Send(g)] + remote) + [Return(g, r.1)];
    TakesMore(s, [Send(g)] + remote, s2, [Return(g, r.1)], t);
    assert t.sagas == s.sagas[g := Updated1(x, r.1)];
  }

  lemma {:induction false} ReturnRuns(s: State, g: nat, c: nat, ok: bool) returns (t: State)
    requires Idle(s) && g < |s.sagas| && s.sagas[g].call == Some(c) && c < |s.calls|
    requires ok ==> s.calls[c].stage == Done(true)
    ensures Takes(s, [Return(g, ok)], t) && Idle(t) && SameOrders(s, t)
    ensures OnSale(t) == OnSale(s) && t.redis == s.redis
    ensures var x := s.sagas[g].(call := None);
            t.sagas == s.sagas[g := if !x.phase.Reserving? then x
                                    else if ok then x.(hi := x.hi + 1) else x.(phase := Restoring)]
  {
    TakesOne(s, Return(g, ok));
    t := Next(s, Return(g, ok));
    assert OnSale(t) == OnSale(s);
  }

  // ----- Loops of remote updates -----

  /** One decrement of the reservation. */
  lemma {:induction false} TakeRuns(s: State, g: nat, fate: OS.Fate) returns (evs: seq<Event>, t: State)
    requires Idle(s) && g < |s.sagas|
    requires var x := s.sagas[g]; x.phase.Reserving? && x.call.None? && x.hi < |x.items| && Sane(x.items)
    ensures Takes(s, evs, t) && Idle(t) && SameOrders(s, t)
    ensures var x := s.sagas[g];
            var r := OS.Rpc(OnSale(s), x.items[x.hi].product, Wrap(-x.items[x.hi].quantity), fate);
            && OnSale(t) == r.0
            && t.sagas == s.sagas[g := if r.1 then x.(hi := x.hi + 1) else x.(phase := Restoring)]
  {
    evs, t := UpdateRuns(s, g, fate);
  }

  /** The loop from item `x.hi` on leads from `s` to `t`. */
  ghost predicate Reserves(s: State, t: State, g: nat, net: OS.Network)
    requires g < |s.sagas| && s.sagas[g].hi <= |s.sagas[g].items|
  {
    var x := s.sagas[g];
    var r := OS.Reserve(OnSale(s), x.items, x.hi, net);
    && OnSale(t) == (if r.1 == |x.items| then r.0 else OS.AfterFailedDecrement(r.0, x.items, r.1, net))
    && t.sagas == s.sagas[g := x.(hi := r.1, phase := if r.1 == |x.items| then Reserving else Restoring)]
  }

  lemma {:induction false} TookOne(s: State, s1: State, t: State, g: nat, net: OS.Network)
    requires g < |s.sagas| && s.sagas[g].hi < |s.sagas[g].items|
    requires var x := s.sagas[g];
             var r := OS.Rpc(OnSale(s), x.items[x.hi].product, Wrap(-x.items[x.hi].quantity), OS.FateOf(net, x.hi));
             r.1 && OnSale(s1) == r.0 && s1.sagas == s.sagas[g := x.(hi := x.hi + 1)]
    requires Reserves(s1, t, g, net)
    ensures Reserves(s, t, g, net)
  {
  }

  /** The reservation loop from item `x.hi` on. */
  lemma {:induction false} ReserveRuns(s: State, g: nat, net: OS.Network) returns (evs: seq<Event>, t: State)
    requires Idle(s) && g < |s.sagas|
    requires var x := s.sagas[g];
             x.phase.Reserving? && x.call.None? && x.lo == 0 && x.hi <= |x.items| && Sane(x.items)
    ensures Takes(s, evs, t) && Idle(t) && SameOrders(s, t) && Reserves(s, t, g, net)
    decreases |s.sagas[g].items| - s.sagas[g].hi
  {
    var x := s.sagas[g];
    if x.hi == |x.items| {
      evs, t := [], s;
      assert s.sagas == s.sagas[g := x];
    } else {
      var first, s1 := TakeRuns(s, g, OS.FateOf(net, x.hi));
      if s1.sagas[g].phase.Reserving? {
        var rest;
        rest, t := ReserveRuns(s1, g, net);
        TookOne(s, s1, t, g, net);
        TakesMore(s, first, s1, rest, t);
        evs := first + rest;
      } else {
        evs, t := first, s1;
      }
    }
  }

  /** After an increment of item `j` there is room for the items that follow. */
  lemma {:induction false} RoomAfter(s: State, t: State, items: seq<Item>, j: nat, n: nat, fate: OS.Fate)
    requires Idle(s) && Idle(t) && Sane(items) && j < n <= |items| && Room(s, items, j, n)
    requires t.redis.Keys == s.redis.Keys
    requires OnSale(t) == OS.Rpc(OnSale(s), items[j].product, items[j].quantity, fate).0
    ensures Room(t, items, j + 1, n)
  {
    forall q | q in t.redis ensures t.redis[q] + QuantityOf(items[j + 1..n], q) <= MAX {
      QuantityFirst(items, j, n, q);
      LockedUpdateIsExact(OnSale(s), items[j].product, items[j].quantity, NoFault);
      assert q in s.redis.Keys;
      assert OnSale(s)[q] == s.redis[q] && OnSale(t)[q] == t.redis[q];
    }
  }

  lemma {:induction false} RoomForOne(s: State, items: seq<Item>, j: nat, n: nat)
    requires Sane(items) && j < n <= |items| && Room(s, items, j, n)
    ensures items[j].product in s.redis ==> s.redis[items[j].product] + items[j].quantity <= MAX
  {
    QuantityFirst(items, j, n, items[j].product);
    QuantityNonNegative(items[j + 1..n], items[j].product);
  }

  /** The compensation loop. */
  lemma {:induction false} RestoreRuns(s: State, g: nat, net: OS.Network, base: nat)
    returns (evs: seq<Event>, t: State)
    requires Idle(s) && g < |s.sagas|
    requires var x := s.sagas[g]; x.phase.Restoring? && x.call.None? && x.lo <= x.hi <= |x.items| && Sane(x.items)
    requires Room(s, s.sagas[g].items, s.sagas[g].lo, s.sagas[g].hi)
    ensures Takes(s, evs, t) && Idle(t) && SameOrders(s, t)
    ensures var x := s.sagas[g];
            && OnSale(t) == OS.Restore(OnSale(s), x.items, x.lo, x.hi, net, base)
            && t.sagas == s.sagas[g := x.(lo := x.hi)]
    decreases s.sagas[g].hi - s.sagas[g].lo
  {
    var x := s.sagas[g];
    if x.lo == x.hi {
      evs, t := [], s;
      assert s.sagas == s.sagas[g := x];
    } else {
      RoomForOne(s, x.items, x.lo, x.hi);
      var first, s1 := UpdateRuns(s, g, OS.FateOf(net, base + x.lo));
      RoomAfter(s, s1, x.items, x.lo, x.hi, OS.FateOf(net, base + x.lo));
      var rest;
      rest, t := RestoreRuns(s1, g, net, base);
      TakesMore(s, first, s1, rest, t);
      evs := first + rest;
    }
  }

  /** Compensating to the end. */
  lemma {:induction false} GiveBackRuns(s: State, g: nat, net: OS.Network, base: nat)
    returns (evs: seq<Event>, t: State)
    requires Idle(s) && g < |s.sagas|
    requires var x := s.sagas[g]; x.phase.Restoring? && x.call.None? && x.lo == 0 && x.hi <= |x.items| && Sane(x.items)
    requires Room(s, s.sagas[g].items, 0, s.sagas[g].hi)
    ensures Takes(s, evs, t) && Idle(t) && SameOrders(s, t)
    ensures OnSale(t) == OS.Restore(OnSale(s), s.sagas[g].items, 0, s.sagas[g].hi, net, base)
  {
    var first, s1 := RestoreRuns(s, g, net, base);
    t := Next(s1, Finish(g));
    TakesOne(s1, Finish(g));
    TakesMore(s, first, s1, [Finish(g)], t);
    evs := first + [Finish(g)];
    assert OnSale(t) == OnSale(s1);
  }

  /** What a reservation took can go back. */
  lemma {:induction false} RoomAfterReserve(s: State, t: State, items: seq<Item>, net: OS.Network)
    requires Idle(s) && Idle(t) && Sane(items)
    requires var r := OS.Reserve(OnSale(s), items, 0, net);
             OnSale(t) == if r.1 == |items| then r.0 else OS.AfterFailedDecrement(r.0, items, r.1, net)
    ensures Room(t, items, 0, OS.Reserve(OnSale(s), items, 0, net).1)
  {
    var (u, k) := OS.Reserve(OnSale(s), items, 0, net);
    ReserveTakesAll(OnSale(s), items, net);
    if k < |items| {
      FailedDecrementTakesAtMostItsItem(u, items, k, net);
    }
    forall q | q in t.redis ensures t.redis[q] + QuantityOf(items[0..k], q) <= MAX {
      assert q in OnSale(t) && OnSale(t)[q] == t.redis[q];
      assert q in u && OnSale(t)[q] <= u[q];
    }
  }

  /** A creating call arrives and reserves; if it cannot, it gives back what it took. */
  lemma {:induction false} ArriveAndReserve(s: State, kind: Kind, items: seq<Item>, net: OS.Network)
    returns (evs: seq<Event>, t: State)
    requires Idle(s) && Creates(kind) && Sane(items)
    ensures Takes(s, evs, t) && Idle(t) && SameOrders(s, t)
    ensures OnSale(t) == OS.ReserveAll(OnSale(s), items, net).0
    ensures OS.ReserveAll(OnSale(s), items, net).1 ==>
            t.sagas == s.sagas + [Saga(kind, items, 0, |items|, Reserving, None)] && Room(t, items, 0, |items|)
  {
    var g := |s.sagas|;
    var s1 := Next(s, Arrive(kind, items));
    assert OnSale(s1) == OnSale(s);
    TakesOne(s, Arrive(kind, items));
    var reserve, s2 := ReserveRuns(s1, g, net);
    RoomAfterReserve(s1, s2, items, net);
    TakesMore(s, [Arrive(kind, items)], s1, reserve, s2);
    evs, t := [Arrive(kind, items)] + reserve, s2;
    if s2.sagas[g].phase.Restoring? {
      var back, s3 := GiveBackRuns(s2, g, net, |items|);
      TakesMore(s, evs, s2, back, s3);
      evs, t := evs + back, s3;
    }
  }

  /** An order that could not be stored is given back. */
  lemma {:induction false} AbortRuns(s: State, evs: seq<Event>, t: State, g: nat, net: OS.Network)
    returns (evs': seq<Event>, u: State)
    requires Takes(s, evs, t) && Idle(t) && Reserved(t, g) && t.sagas[g].lo == 0 && Sane(t.sagas[g].items)
    requires Room(t, t.sagas[g].items, 0, |t.sagas[g].items|)
    ensures Takes(s, evs', u) && Idle(u) && SameOrders(t, u)
    ensures OnSale(u) == OS.RestoreAll(OnSale(t), t.sagas[g].items, net, |t.sagas[g].items|)
  {
    var t1 := Next(t, AbortOrder(g));
    assert OnSale(t1) == OnSale(t);
    TakesOne(t, AbortOrder(g));
    TakesMore(s, evs, t, [AbortOrder(g)], t1);
    var back;
    back, u := GiveBackRuns(t1, g, net, |t.sagas[g].items|);
    TakesMore(s, evs + [AbortOrder(g)], t1, back, u);
    evs' := (evs + [AbortOrder(g)]) + back;
  }

  // ----- The calls of the service -----

  /** CreateOrder, with whatever the network and the transaction do, is a run of the system. */
  lemma {:induction false} CreateRuns(s: State, items: seq<Item>, net: OS.Network, f: OS.TxFault)
    returns (evs: seq<Event>, t: State)
    requires Idle(s) && Sane(items)
    ensures Takes(s, evs, t) && Idle(t) && View(t) == OS.Create(View(s), items, net, f).0
  {
    var g := |s.sagas|;
    evs, t := ArriveAndReserve(s, Create, items, net);
    if OS.ReserveAll(OnSale(s), items, net).1 {
      if OS.TxSucceeds(items, f) {
        var u := Next(t, CommitOrder(g));
        TakesOne(t, CommitOrder(g));
        TakesMore(s, evs, t, [CommitOrder(g)], u);
        evs, t := evs + [CommitOrder(g)], u;
        assert RowsOf(t.orders) == RowsOf(s.orders) + [OS.Row(items, Total(items), Pending, false)];
      } else {
        evs, t := AbortRuns(s, evs, t, g, net);
      }
    }
  }

  /** So is AsyncCreateOrder. */
  lemma {:induction false} AsyncRuns(s: State, items: seq<Item>, net: OS.Network, pushed: bool)
    returns (evs: seq<Event>, t: State)
    requires Idle(s) && Sane(items)
    ensures Takes(s, evs, t) && Idle(t) && View(t) == OS.Async(View(s), items, net, pushed).0
  {
    var g := |s.sagas|;
    evs, t := ArriveAndReserve(s, Async, items, net);
    if OS.ReserveAll(OnSale(s), items, net).1 {
      if pushed {
        var u := Next(t, PushOrder(g));
        TakesOne(t, PushOrder(g));
        TakesMore(s, evs, t, [PushOrder(g)], u);
        evs, t := evs + [PushOrder(g)], u;
        assert ListOf(t.list) == [items] + ListOf(s.list);
      } else {
        evs, t := AbortRuns(s, evs, t, g, net);
      }
    }
  }

  lemma {:induction false} PopRuns(s: State)
    requires Idle(s) && s.list != []
    ensures var n := |s.list| - 1;
            var t := s.(worker := [s.list[n]], list := s.list[..n]);
            Takes(s, [Pop], t) && ListOf(t.list) == ListOf(s.list)[..n]
  {
    TakesOne(s, Pop);
  }

  /** One turn of the order worker. */
  lemma {:induction false} ProcessRuns(s: State, f: OS.TxFault) returns (evs: seq<Event>, t: State)
    requires Idle(s)
    ensures Takes(s, evs, t) && Idle(t) && View(t) == OS.Process(View(s), f)
  {
    if s.list == [] {
      evs, t := [], s;
    } else {
      var n := |s.list| - 1;
      var q := s.list[n];
      var s1 := s.(worker := [q], list := s.list[..n]);
      var e := if OS.TxSucceeds(q.items, f) then Persist else DropOrder;
      PopRuns(s);
      TakesOne(s1, e);
      TakesMore(s, [Pop], s1, [e], Next(s1, e));
      evs, t := [Pop] + [e], Next(s1, e);
      RowAdded(s.orders, NewRow(q.id, q.items, Confirmed));
    }
  }

  lemma {:induction false} RowAdded(orders: seq<OrderRow>, o: OrderRow)
    ensures RowsOf(orders + [o]) == RowsOf(orders) + [RowOf(o)]
  {
  }

  lemma {:induction false} RowPut(orders: seq<OrderRow>, r: nat, o: OrderRow)
    requires r < |orders|
    ensures RowsOf(orders[r := o]) == RowsOf(orders)[r := RowOf(o)]
  {
  }

  /** ConfirmOrder; a refused one changes nothing. */
  lemma {:induction false} ConfirmRuns(s: State, r: nat, call: OS.RowCall) returns (evs: seq<Event>, t: State)
    requires Idle(s) && (r < |s.orders| ==> s.orders[r].lock.None?)
    ensures Takes(s, evs, t) && Idle(t) && View(t) == OS.ConfirmRow(View(s), r, call).0
  {
    if OS.ConfirmRow(View(s), r, call).1.Some? {
      evs, t := [], s;
    } else {
      var g, o := |s.sagas|, s.orders[r];
      var first, s1 := OpenRuns(s, Confirm(r), r);
      t := Next(s1, CommitConfirm(g));
      TakesOne(s1, CommitConfirm(g));
      TakesMore(s, first, s1, [CommitConfirm(g)], t);
      evs := first + [CommitConfirm(g)];
      assert t.orders == s.orders[r := o.(status := Confirmed)];
      RowPut(s.orders, r, o.(status := Confirmed));
    }
  }

  /** The commit of a cancel. */
  lemma {:induction false} CancelCommits(s: State, r: nat) returns (evs: seq<Event>, t: State)
    requires Idle(s) && r < |s.orders| && s.orders[r].lock.None? && s.orders[r].status in {Pending, Confirmed}
    ensures Takes(s, evs, t) && Idle(t) && t.db == s.db && t.redis == s.redis && t.list == s.list
    ensures var o := s.orders[r];
            && t.sagas == s.sagas + [Saga(Cancel(r), o.items, 0, |o.items|, Restoring, None)]
            && RowsOf(t.orders) == RowsOf(s.orders)[r := RowOf(o).(status := Cancelled, cancelled := true)]
  {
    var g, o := |s.sagas|, s.orders[r];
    var first, s1 := OpenRuns(s, Cancel(r), r);
    t := Next(s1, CommitCancel(g));
    TakesOne(s1, CommitCancel(g));
    TakesMore(s, first, s1, [CommitCancel(g)], t);
    evs := first + [CommitCancel(g)];
    var o' := o.(status := Cancelled, cancelledBy := Some(g));
    assert t.orders == s.orders[r := o'];
    assert OnSale(t) == OnSale(s);
    RowPut(s.orders, r, o');
  }

  /** CancelOrder, restock included, as long as the counters it restocks stay an `int32`: the database refuses an
      increment beyond, Redis does not. */
  lemma {:induction false} CancelRuns(s: State, r: nat, call: OS.RowCall, net: OS.Network)
    returns (evs: seq<Event>, t: State)
    requires Idle(s)
    requires r < |s.orders| ==>
      s.orders[r].lock.None? && Sane(s.orders[r].items) && Room(s, s.orders[r].items, 0, |s.orders[r].items|)
    ensures Takes(s, evs, t) && Idle(t) && View(t) == OS.CancelRow(View(s), r, call, net).0
  {
    if OS.CancelRow(View(s), r, call, net).1.Some? {
      evs, t := [], s;
    } else {
      var s1;
      evs, s1 := CancelCommits(s, r);
      assert OnSale(s1) == OnSale(s);
      var back;
      back, t := GiveBackRuns(s1, |s.sagas|, net, 0);
      TakesMore(s, evs, s1, back, t);
      evs := evs + back;
    }
  }

  // ----- The stock channel -----

  /** Calls entering the channel at a step, and during a run, in order. */
  function AdmittedBy(e: Event): seq<nat> {
    if e.Admit? then [e.c] else []
  }

  function Admitted(evs: seq<Event>): seq<nat> {
    if evs == [] then [] else AdmittedBy(evs[0]) + Admitted(evs[1..])
  }

  /** The request at the head of the channel, as the stock queue has it. */
  function Head(s: State, fault: Fault): SQ.Request
    requires s.channel != [] && s.channel[0] < |s.calls|
  {
    SQ.Request(s.calls[s.channel[0]].product, s.calls[s.channel[0]].delta, fault, s.channel[0])
  }

  /** Requests the worker serves at a step, and during a run, in order. */
  function ServedBy(s: State, e: Event): seq<SQ.Request>
    requires Enabled(s, e)
  {
    if e.RunWorker? then [Head(s, e.fault)] else []
  }

  function Served(s: State, evs: seq<Event>): seq<SQ.Request>
    requires Executable(s, evs)
    decreases |evs|
  {
    if evs == [] then []
    else ServedBy(s, evs[0]) + Served(Next(s, evs[0]), evs[1..])
  }

  function Senders(rs: seq<SQ.Request>): seq<nat> {
    seq(|rs|, i requires 0 <= i < |rs| => rs[i].sender)
  }

  lemma {:induction false} RowsFromFirst(t: StockTable, r: SQ.Request, rest: seq<SQ.Request>)
    ensures SQ.Rows(t, [r] + rest) == SQ.Rows(SQ.Serve(t, r).0, rest)
  {
    var all := [r] + rest;
    if rest == [] {
      assert all[..0] == [] && all[0] == r;
      assert SQ.Rows(t, all) == SQ.Serve(SQ.Rows(t, all[..0]), r).0;
    } else {
      var n := |rest| - 1;
      RowsFromFirst(t, r, rest[..n]);
      assert all[..|all| - 1] == [r] + rest[..n];
    }
  }

  lemma {:induction false} OnlyTheWorkerWrites(s: State, e: Event)
    requires Enabled(s, e) && !e.EndHotdeal?
    ensures Next(s, e).db == if e.RunWorker? then SQ.Serve(s.db, Head(s, e.fault)).0 else s.db
  {
    StepFrame(s, e);
  }

  /** What is in the channel, or enters it, is served or stays there. */
  lemma {:induction false} ChannelMoves(s: State, e: Event)
    requires Enabled(s, e)
    ensures s.channel + AdmittedBy(e) == Senders(ServedBy(s, e)) + Next(s, e).channel
  {
    StepFrame(s, e);
  }

  lemma {:induction false} FifoJoins(ch: seq<nat>, entered: seq<nat>, left: seq<nat>, ch': seq<nat>, entered': seq<nat>,
                                    left': seq<nat>, ch'': seq<nat>)
    requires ch + entered == left + ch' && ch' + entered' == left' + ch''
    ensures ch + (entered + entered') == (left + left') + ch''
  {
    calc {
      ch + (entered + entered');
      (ch + entered) + entered';
      (left + ch') + entered';
      left + (ch' + entered');
      left + (left' + ch'');
      (left + left') + ch'';
    }
  }

  /** While no deal is closed, the rows are the stock queue's fold of the requests served. */
  lemma {:induction false} RowsAreTheQueuesFold(s: State, evs: seq<Event>)
    requires Executable(s, evs) && forall i :: 0 <= i < |evs| ==> !evs[i].EndHotdeal?
    ensures Run(s, evs).db == SQ.Rows(s.db, Served(s, evs))
    decreases |evs|
  {
    if evs != [] {
      var s', rest := Next(s, evs[0]), Served(Next(s, evs[0]), evs[1..]);
      OnlyTheWorkerWrites(s, evs[0]);
      RowsAreTheQueuesFold(s', evs[1..]);
      if evs[0].RunWorker? {
        RowsFromFirst(s.db, Head(s, evs[0].fault), rest);
      } else {
        assert [] + rest == rest;
      }
    }
  }

  /** Requests are served in the order in which they entered the channel. */
  lemma {:induction false} ServedInOrderOfAdmission(s: State, evs: seq<Event>)
    requires Executable(s, evs)
    ensures s.channel + Admitted(evs) == Senders(Served(s, evs)) + Run(s, evs).channel
    decreases |evs|
  {
    if evs != [] {
      var s' := Next(s, evs[0]);
      ChannelMoves(s, evs[0]);
      ServedInOrderOfAdmission(s', evs[1..]);
      SendersConcat(ServedBy(s, evs[0]), Served(s', evs[1..]));
      FifoJoins(s.channel, AdmittedBy(evs[0]), Senders(ServedBy(s, evs[0])), s'.channel, Admitted(evs[1..]),
                Senders(Served(s', evs[1..])), Run(s', evs[1..]).channel);
    }
  }

  lemma {:induction false} SendersConcat(a: seq<SQ.Request>, b: seq<SQ.Request>)
    ensures Senders(a + b) == Senders(a) + Senders(b)
  {
  }
}
