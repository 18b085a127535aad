/** The order service, the stock back-ends and the order queue as one transition system. Any number of order
    calls run at once; every remote stock update passes through its stages one step at a time and may fail, be
    abandoned or lose its reply at any of them. */
module SagaSystem {
  import opened Common
  import opened Int32
  import opened ProductDb
  import opened Pricing
  import Hotdeal
  import StockQueue

  // ----- Remote stock updates -----

  /** Sent by the order service; routed by the `HasStock` test; possibly in the stock channel; done, with or
      without having changed the stock. */
  datatype Stage = Sent | AtRedis | Queueing | InChannel | Done(applied: bool)

  /** One UpdateStock call, made by `saga` for its item number `item`; `awaited` while the caller still waits. */
  datatype Call = Call(saga: nat, item: nat, product: ProductId, delta: int, stage: Stage, awaited: bool)

  // ----- Order calls -----

  datatype Kind = Create | Async | Cancel(row: nat) | Confirm(row: nat)

  datatype Phase =
    | Reserving              // decrementing stock item by item, then storing the order
    | Opening                // about to lock the order row
    | Holding(seen: Status)  // row locked, status read
    | Restoring              // giving stock back, item by item
    | Finished(ok: bool)

  /** A running order call. It answers for the stock of `items[lo..hi]`: taken, and neither stored nor given back.
      `call` is the remote update it waits for. */
  datatype Saga = Saga(kind: Kind, items: seq<Item>, lo: nat, hi: nat, phase: Phase, call: Option<nat>)

  // ----- Stored orders -----

  /** An order row with its items. `cancelledBy` stands for `cancelled_at`: set together with it, it names the
      call that set it. `lock` is the row lock of `SELECT ... FOR UPDATE`. */
  datatype OrderRow = OrderRow(id: nat, items: seq<Item>, total: int, status: Status, cancelledBy: Option<nat>,
                               lock: Option<nat>)

  /** A queued order; its id is the number of the call that accepted it. */
  datatype OrderRequest = OrderRequest(id: nat, items: seq<Item>)

  /** `redis` holds the counters of the open deals. `list` is the Redis list (pushed on the left, popped on the
      right), `worker` the request being processed. The rest is history: `had`, the stocks that each row has shown;
      `accepted` and `finished`, ids in the order they were enqueued and disposed of. */
  datatype State = State(
    db: StockTable, redis: StockTable, had: map<ProductId, set<int>>,
    calls: seq<Call>, channel: seq<nat>,
    sagas: seq<Saga>, orders: seq<OrderRow>,
    list: seq<OrderRequest>, worker: seq<OrderRequest>,
    accepted: seq<nat>, finished: seq<nat>)

  /** `Route` carries what `HasStock` answers: false when there is no counter, and also when Redis does not answer.
      `StartHotdeal` carries the stock it reads, which comes through the cache and may be any the row has shown.
      `EndHotdeal` carries whether the write-back, or the reply to the delete before it, comes through. */
  datatype Event =
    | Arrive(kind: Kind, items: seq<Item>)
    | Send(g: nat)
    | Route(c: nat, seen: bool)
    | Admit(c: nat)
    | RunRedis(c: nat)
    | RunWorker(fault: Fault)
    | FailCall(c: nat)
    | Return(g: nat, ok: bool)
    | CommitOrder(g: nat)
    | PushOrder(g: nat)
    | AbortOrder(g: nat)
    | Finish(g: nat)
    | OpenRow(g: nat)
    | Rollback(g: nat)
    | CommitCancel(g: nat)
    | CommitConfirm(g: nat)
    | Pop
    | Persist
    | DropOrder
    | StartHotdeal(p: ProductId, read: int)
    | EndHotdeal(p: ProductId, written: bool)

  predicate Creates(k: Kind) {
    k.Create? || k.Async?
  }

  /** No update of `p` lies between its `HasStock` test and its effect. */
  predicate Quiet(s: State, p: ProductId) {
    forall c :: 0 <= c < |s.calls| && s.calls[c].product == p ==> s.calls[c].stage.Sent? || s.calls[c].stage.Done?
  }

  predicate Live(s: State, g: nat) {
    g < |s.sagas|
  }

  /** All stock is taken and no remote update is outstanding: the order can be stored. */
  predicate Reserved(s: State, g: nat) {
    Live(s, g) && s.sagas[g].phase.Reserving? && s.sagas[g].call.None? && s.sagas[g].hi == |s.sagas[g].items|
  }

  predicate Holds(s: State, g: nat) {
    Live(s, g) && s.sagas[g].phase.Holding? && !Creates(s.sagas[g].kind) && s.sagas[g].kind.row < |s.orders|
  }

  predicate CanSend(s: State, g: nat) {
    && Live(s, g) && s.sagas[g].call.None?
    && (var x := s.sagas[g];
        || (x.phase.Reserving? && x.hi < |x.items|)
        || (x.phase.Restoring? && x.lo < x.hi <= |x.items|))
  }

  predicate CanReturn(s: State, g: nat, ok: bool) {
    && Live(s, g) && s.sagas[g].call.Some? && s.sagas[g].call.value < |s.calls|
    && (ok ==> s.calls[s.sagas[g].call.value].stage == Done(true))
  }

  predicate Enabled(s: State, e: Event) {
    match e
    case Arrive(k, items) => Sane(items) && (Creates(k) || items == [])
    case Send(g) => CanSend(s, g)
    case Route(c, seen) => c < |s.calls| && s.calls[c].stage.Sent? && (seen ==> s.calls[c].product in s.redis)
    case Admit(c) => c < |s.calls| && s.calls[c].stage.Queueing? && |s.channel| < StockQueue.CAPACITY
    case RunRedis(c) => c < |s.calls| && s.calls[c].stage.AtRedis?
    case RunWorker(_) => s.channel != [] && s.channel[0] < |s.calls|
    case FailCall(c) => c < |s.calls| && !s.calls[c].stage.InChannel? && !s.calls[c].stage.Done?
    case Return(g, ok) => CanReturn(s, g, ok)
    case CommitOrder(g) => Reserved(s, g) && s.sagas[g].kind.Create? && RowsAccepted(s.sagas[g].items)
    case PushOrder(g) => Reserved(s, g) && s.sagas[g].kind.Async?
    case AbortOrder(g) => Reserved(s, g)
    case Finish(g) => && Live(s, g) && s.sagas[g].phase.Restoring? && s.sagas[g].call.None?
                      && s.sagas[g].lo == s.sagas[g].hi
    case OpenRow(g) => && Live(s, g) && s.sagas[g].phase.Opening? && !Creates(s.sagas[g].kind)
                       && (s.sagas[g].kind.row < |s.orders| ==> s.orders[s.sagas[g].kind.row].lock.None?)
    case Rollback(g) => Holds(s, g)
    case CommitCancel(g) => Holds(s, g) && s.sagas[g].kind.Cancel? && s.sagas[g].phase.seen in {Pending, Confirmed}
    case CommitConfirm(g) => Holds(s, g) && s.sagas[g].kind.Confirm? && s.sagas[g].phase.seen == Pending
    case Pop => s.worker == [] && s.list != []
    case Persist => s.worker != [] && RowsAccepted(s.worker[0].items)
    case DropOrder => s.worker != []
    case StartHotdeal(p, read) => p in s.db && p !in s.redis && Quiet(s, p) && p in s.had && read in s.had[p]
    case EndHotdeal(p, _) => p in s.redis && Quiet(s, p)
  }

  // ----- Effects -----

  function SetSaga(s: State, g: nat, x: Saga): State
    requires g < |s.sagas|
  {
    s.(sagas := s.sagas[g := x])
  }

  function SetCall(s: State, c: nat, x: Call): State
    requires c < |s.calls|
  {
    s.(calls := s.calls[c := x])
  }

  function SetStage(s: State, c: nat, st: Stage): State
    requires c < |s.calls|
  {
    SetCall(s, c, s.calls[c].(stage := st))
  }

  function SetRow(s: State, r: nat, o: OrderRow): State
    requires r < |s.orders|
  {
    s.(orders := s.orders[r := o])
  }

  function Arriving(k: Kind, items: seq<Item>): Saga {
    Saga(k, items, 0, 0, if Creates(k) then Reserving else Opening, None)
  }

  /** Reserving asks for minus the next quantity; restoring gives an item back, which is then no longer its own. */
  function SendNext(s: State, g: nat): State
    requires CanSend(s, g)
  {
    var x, c := s.sagas[g], |s.calls|;
    if x.phase.Reserving? then
      var i := x.items[x.hi];
      SetSaga(s, g, x.(call := Some(c)))
        .(calls := s.calls + [Call(g, x.hi, i.product, Wrap(-i.quantity), Sent, true)])
    else
      var i := x.items[x.lo];
      SetSaga(s, g, x.(call := Some(c), lo := x.lo + 1))
        .(calls := s.calls + [Call(g, x.lo, i.product, i.quantity, Sent, true)])
  }

  function RunRedisNext(s: State, c: nat): State
    requires c < |s.calls|
  {
    var k := s.calls[c];
    if k.delta < 0 then
      var (redis', code) := Hotdeal.DecrementScript(s.redis, k.product, Wrap(-k.delta));
      SetStage(s, c, Done(code >= 0)).(redis := redis')
    else
      var n := (if k.product in s.redis then s.redis[k.product] else 0) + k.delta;
      SetStage(s, c, Done(true)).(redis := s.redis[k.product := n])
  }

  /** Every row adds what it shows now to what it has shown. */
  function Recorded(had: map<ProductId, set<int>>, db: StockTable): map<ProductId, set<int>> {
    map p | p in db :: (if p in had then had[p] else {}) + {db[p]}
  }

  function RunWorkerNext(s: State, fault: Fault): State
    requires s.channel != [] && s.channel[0] < |s.calls|
  {
    var k := s.calls[s.channel[0]];
    var (db', r) := LockedUpdate(s.db, k.product, k.delta, fault);
    SetStage(s, s.channel[0], Done(r.Updated?)).(db := db', had := Recorded(s.had, db'), channel := s.channel[1..])
  }

  /** The reply, or an error in its place: a caller may be told of failure whatever became of its call. */
  function ReturnNext(s: State, g: nat, ok: bool): State
    requires CanReturn(s, g, ok)
  {
    var x := s.sagas[g];
    var x' :=
      if x.phase.Reserving? then
        if ok then x.(call := None, hi := x.hi + 1) else x.(call := None, phase := Restoring)
      else
        x.(call := None);
    var c := x.call.value;
    SetCall(SetSaga(s, g, x'), c, s.calls[c].(awaited := false))
  }

  function Stored(x: Saga): Saga {
    x.(lo := 0, hi := 0, phase := Finished(true))
  }

  function NewRow(id: nat, items: seq<Item>, status: Status): OrderRow {
    OrderRow(id, items, Total(items), status, None, None)
  }

  function OpenRowNext(s: State, g: nat): State
    requires Enabled(s, OpenRow(g))
  {
    var x := s.sagas[g];
    var r := x.kind.row;
    if r < |s.orders| then
      SetRow(SetSaga(s, g, x.(phase := Holding(s.orders[r].status))), r, s.orders[r].(lock := Some(g)))
    else
      SetSaga(s, g, x.(phase := Finished(false)))
  }

  function Unlock(s: State, g: nat, x: Saga, o: OrderRow): State
    requires Holds(s, g)
  {
    SetRow(SetSaga(s, g, x), s.sagas[g].kind.row, o.(lock := None))
  }

  function Next(s: State, e: Event): State
    requires Enabled(s, e)
  {
    match e
    case Arrive(k, items) => s.(sagas := s.sagas + [Arriving(k, items)])
    case Send(g) => SendNext(s, g)
    case Route(c, seen) => SetStage(s, c, if seen then AtRedis else Queueing)
    case Admit(c) => SetStage(s, c, InChannel).(channel := s.channel + [c])
    case RunRedis(c) => RunRedisNext(s, c)
    case RunWorker(fault) => RunWorkerNext(s, fault)
    case FailCall(c) => SetStage(s, c, Done(false))
    case Return(g, ok) => ReturnNext(s, g, ok)
    case CommitOrder(g) =>
      SetSaga(s, g, Stored(s.sagas[g])).(orders := s.orders + [NewRow(g, s.sagas[g].items, Pending)])
    case PushOrder(g) =>
      SetSaga(s, g, Stored(s.sagas[g]))
        .(list := [OrderRequest(g, s.sagas[g].items)] + s.list, accepted := s.accepted + [g])
    case AbortOrder(g) => SetSaga(s, g, s.sagas[g].(phase := Restoring))
    case Finish(g) => SetSaga(s, g, s.sagas[g].(phase := Finished(s.sagas[g].kind.Cancel?)))
    case OpenRow(g) => OpenRowNext(s, g)
    case Rollback(g) => Unlock(s, g, s.sagas[g].(phase := Finished(false)), s.orders[s.sagas[g].kind.row])
    case CommitCancel(g) =>
      var o := s.orders[s.sagas[g].kind.row];
      Unlock(s, g, s.sagas[g].(items := o.items, lo := 0, hi := |o.items|, phase := Restoring),
             o.(status := Cancelled, cancelledBy := Some(g)))
    case CommitConfirm(g) =>
      Unlock(s, g, s.sagas[g].(phase := Finished(true)), s.orders[s.sagas[g].kind.row].(status := Confirmed))
    case Pop => s.(worker := [s.list[|s.list| - 1]], list := s.list[..|s.list| - 1])
    case Persist =>
      s.(worker := [], finished := s.finished + [s.worker[0].id],
         orders := s.orders + [NewRow(s.worker[0].id, s.worker[0].items, Confirmed)])
    case DropOrder => s.(worker := [], finished := s.finished + [s.worker[0].id])
    case StartHotdeal(p, read) => s.(redis := s.redis[p := read])
    case EndHotdeal(p, written) =>
      var st := Hotdeal.EndOf(Hotdeal.Store(s.db, s.redis), p, written);
      s.(db := st.db, redis := st.redis, had := Recorded(s.had, st.db))
  }

  // ----- Runs -----

  predicate Executable(s: State, evs: seq<Event>)
    decreases |evs|
  {
    evs == [] || (Enabled(s, evs[0]) && Executable(Next(s, evs[0]), evs[1..]))
  }

  function Run(s: State, evs: seq<Event>): State
    requires Executable(s, evs)
    decreases |evs|
  {
    if evs == [] then s else Run(Next(s, evs[0]), evs[1..])
  }

  /** A fresh start: stock in the database, no deal open, nothing in progress. */
  function Initial(supply: StockTable): State {
    State(supply, map[], Recorded(map[], supply), [], [], [], [], [], [], [], [])
  }
}
