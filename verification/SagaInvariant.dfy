/** The shape every reachable state of the order system keeps: who waits for which remote update, which store each
    update is bound for, who holds which row lock, and who cancelled which order. */
module SagaInvariant {
  import opened Common
  import opened Int32
  import opened ProductDb
  import opened Pricing
  import opened SagaSystem
  import opened SagaFrame
  import StockQueue

  // ----- One component at a time -----

  ghost predicate StockOk(db: StockTable, redis: StockTable) {
    ValidTable(db) && forall p :: p in redis ==> p in db && redis[p] >= 0
  }

  /** What rows have shown: what they show now, and nothing that a row cannot hold. */
  ghost predicate HistoryOk(db: StockTable, had: map<ProductId, set<int>>) {
    && (forall p :: p in db ==> p in had && db[p] in had[p])
    && (forall p, n :: p in had && n in had[p] ==> p in db && 0 <= n <= MAX)
  }

  /** A cancel call whose transaction committed. */
  ghost predicate Committed(x: Saga) {
    x.kind.Cancel? && (x.phase.Restoring? || x.phase == Finished(true))
  }

  ghost predicate Shaped(x: Saga) {
    && x.lo <= x.hi <= |x.items| && Sane(x.items)
    && (x.phase.Reserving? ==> Creates(x.kind) && x.lo == 0)
    && (x.phase.Opening? || x.phase.Holding? ==> !Creates(x.kind) && x.items == [])
    && (x.phase.Restoring? ==> !x.kind.Confirm?)
    && (x.phase.Finished? ==> x.lo == x.hi)
    && (x.phase == Finished(true) && Creates(x.kind) ==> x.hi == 0)
    && (!Creates(x.kind) && !Committed(x) ==> x.items == [])
    && (x.call.Some? ==> (x.phase.Reserving? && x.hi < |x.items|) || x.phase.Restoring?)
  }

  /** A saga that waits, waits for a call of its own: the next decrement while reserving, a refund afterwards. */
  ghost predicate Waits(g: nat, x: Saga, calls: seq<Call>) {
    x.call.Some? ==>
      && x.call.value < |calls|
      && calls[x.call.value].saga == g
      && calls[x.call.value].awaited
      && (x.phase.Reserving? ==> calls[x.call.value].item == x.hi && calls[x.call.value].delta < 0)
      && (x.phase.Restoring? ==> calls[x.call.value].delta > 0)
  }

  /** The lock protects what was read under it; a committed cancel owns its row's cancellation. */
  ghost predicate OwnsRow(g: nat, x: Saga, orders: seq<OrderRow>) {
    && (x.phase.Holding? && !Creates(x.kind) ==>
        && x.kind.row < |orders|
        && orders[x.kind.row].lock == Some(g)
        && orders[x.kind.row].status == x.phase.seen)
    && (Committed(x) ==> x.kind.row < |orders| && orders[x.kind.row].cancelledBy == Some(g))
  }

  ghost predicate CallOk(c: nat, k: Call, sagas: seq<Saga>, redis: StockTable) {
    && k.saga < |sagas|
    && (var x := sagas[k.saga];
        && k.item < |x.items|
        && k.product == x.items[k.item].product
        && (k.delta == x.items[k.item].quantity || k.delta == -x.items[k.item].quantity)
        && 0 < x.items[k.item].quantity <= MAX
        && (k.delta > 0 ==> k.item < x.lo)
        && (k.awaited ==> x.call == Some(c)))
    && (k.stage.AtRedis? ==> k.product in redis)
  }

  ghost predicate RowOk(r: nat, o: OrderRow, sagas: seq<Saga>) {
    && Sane(o.items) && RowsAccepted(o.items) && o.total == Total(o.items)
    && (o.status == Cancelled <==> o.cancelledBy.Some?)
    && (o.lock.Some? ==>
        && o.lock.value < |sagas|
        && sagas[o.lock.value].phase.Holding?
        && !Creates(sagas[o.lock.value].kind)
        && sagas[o.lock.value].kind.row == r)
    && (o.cancelledBy.Some? ==>
        && o.cancelledBy.value < |sagas|
        && Committed(sagas[o.cancelledBy.value])
        && sagas[o.cancelledBy.value].kind.row == r
        && sagas[o.cancelledBy.value].items == o.items)
  }

  ghost predicate ChannelOk(channel: seq<nat>, calls: seq<Call>) {
    && |channel| <= StockQueue.CAPACITY
    && (forall k :: 0 <= k < |channel| ==> channel[k] < |calls| && calls[channel[k]].stage.InChannel?)
    && (forall j, k :: 0 <= j < k < |channel| ==> channel[j] != channel[k])
    && (forall c :: 0 <= c < |calls| && calls[c].stage.InChannel? ==> c in channel)
  }

  ghost predicate SagasOk(sagas: seq<Saga>, calls: seq<Call>, orders: seq<OrderRow>) {
    forall g :: 0 <= g < |sagas| ==> Shaped(sagas[g]) && Waits(g, sagas[g], calls) && OwnsRow(g, sagas[g], orders)
  }

  ghost predicate CallsOk(calls: seq<Call>, sagas: seq<Saga>, redis: StockTable) {
    forall c :: 0 <= c < |calls| ==> CallOk(c, calls[c], sagas, redis)
  }

  ghost predicate RowsOk(orders: seq<OrderRow>, sagas: seq<Saga>) {
    forall r :: 0 <= r < |orders| ==> RowOk(r, orders[r], sagas)
  }

  ghost predicate RequestsOk(list: seq<OrderRequest>, worker: seq<OrderRequest>) {
    && |worker| <= 1
    && (forall k :: 0 <= k < |list| ==> Sane(list[k].items))
    && (forall k :: 0 <= k < |worker| ==> Sane(worker[k].items))
  }

  ghost predicate Inv(s: State) {
    && StockOk(s.db, s.redis) && HistoryOk(s.db, s.had)
    && SagasOk(s.sagas, s.calls, s.orders)
    && CallsOk(s.calls, s.sagas, s.redis)
    && RowsOk(s.orders, s.sagas)
    && ChannelOk(s.channel, s.calls)
    && RequestsOk(s.list, s.worker)
  }

  // ----- What each update of one component keeps -----

  /** Moving a call to another stage. */
  lemma {:induction false} StageKeeps(s: State, c: nat, st: Stage, redis': StockTable)
    requires Inv(s) && c < |s.calls| && redis'.Keys == s.redis.Keys
    requires st.AtRedis? ==> s.calls[c].product in s.redis
    ensures var s' := SetStage(s, c, st);
            && SagasOk(s'.sagas, s'.calls, s'.orders)
            && CallsOk(s'.calls, s'.sagas, redis')
  {
  }

  lemma {:induction false} RouteKeeps(s: State, c: nat, seen: bool)
    requires Inv(s) && Enabled(s, Route(c, seen))
    ensures Inv(Next(s, Route(c, seen)))
  {
    StageKeeps(s, c, if seen then AtRedis else Queueing, s.redis);
  }

  lemma {:induction false} AdmitKeeps(s: State, c: nat)
    requires Inv(s) && Enabled(s, Admit(c))
    ensures Inv(Next(s, Admit(c)))
  {
    assert CallOk(c, s.calls[c], s.sagas, s.redis);
    StageKeeps(s, c, InChannel, s.redis);
  }

  lemma {:induction false} FailKeeps(s: State, c: nat)
    requires Inv(s) && Enabled(s, FailCall(c))
    ensures Inv(Next(s, FailCall(c)))
  {
    StageKeeps(s, c, Done(false), s.redis);
  }

  lemma {:induction false} RedisKeeps(s: State, c: nat)
    requires Inv(s) && Enabled(s, RunRedis(c))
    ensures Inv(Next(s, RunRedis(c)))
  {
    var s' := Next(s, RunRedis(c));
    assert CallOk(c, s.calls[c], s.sagas, s.redis);
    StageKeeps(s, c, s'.calls[c].stage, s'.redis);
  }

  lemma {:induction false} RecordKeeps(had: map<ProductId, set<int>>, db: StockTable, db': StockTable)
    requires HistoryOk(db, had) && ValidTable(db') && db'.Keys == db.Keys
    ensures HistoryOk(db', Recorded(had, db'))
  {
  }

  lemma {:induction false} WorkerKeeps(s: State, fault: Fault)
    requires Inv(s) && Enabled(s, RunWorker(fault))
    ensures Inv(Next(s, RunWorker(fault)))
  {
    var s' := Next(s, RunWorker(fault));
    var c := s.channel[0];
    assert CallOk(c, s.calls[c], s.sagas, s.redis);
    LockedUpdateIsExact(s.db, s.calls[c].product, s.calls[c].delta, fault);
    RecordKeeps(s.had, s.db, s'.db);
    StageKeeps(s, c, s'.calls[c].stage, s.redis);
    HeadLeaves(s.channel, s.calls, s'.calls[c].stage);
  }

  /** The first request leaves the channel. */
  lemma {:induction false} HeadLeaves(channel: seq<nat>, calls: seq<Call>, st: Stage)
    requires ChannelOk(channel, calls) && channel != [] && channel[0] < |calls| && !st.InChannel?
    ensures ChannelOk(channel[1..], calls[channel[0] := calls[channel[0]].(stage := st)])
  {
    var calls' := calls[channel[0] := calls[channel[0]].(stage := st)];
    forall d | 0 <= d < |calls'| && calls'[d].stage.InChannel? ensures d in channel[1..] {
      assert d in channel && channel == [channel[0]] + channel[1..];
    }
  }

  lemma {:induction false} SendKeeps(s: State, g: nat)
    requires Inv(s) && Enabled(s, Send(g))
    ensures Inv(Next(s, Send(g)))
  {
    var s' := Next(s, Send(g));
    var x, c := s.sagas[g], |s.calls|;
    assert Shaped(x);
    var item := if x.phase.Reserving? then x.hi else x.lo;
    assert 1 <= x.items[item].quantity <= MAX;
    NewCallKeeps(s, g, s'.sagas[g], s'.calls[c]);
    assert s'.sagas == s.sagas[g := s'.sagas[g]] && s'.calls == s.calls + [s'.calls[c]];
    RowsFollow(s, s'.sagas, g);
  }

  /** A saga that waits for nothing makes a call and waits for it. */
  lemma {:induction false} NewCallKeeps(s: State, g: nat, x: Saga, k: Call)
    requires Inv(s) && g < |s.sagas| && s.sagas[g].call.None?
    requires x.call == Some(|s.calls|) && k.saga == g && k.stage.Sent?
    requires x.kind == s.sagas[g].kind && x.items == s.sagas[g].items && x.phase == s.sagas[g].phase
    requires Shaped(x) && x.lo >= s.sagas[g].lo
    requires CallOk(|s.calls|, k, s.sagas[g := x], s.redis)
    requires Waits(g, x, s.calls + [k])
    ensures SagasOk(s.sagas[g := x], s.calls + [k], s.orders)
    ensures CallsOk(s.calls + [k], s.sagas[g := x], s.redis)
  {
  }

  lemma {:induction false} ReturnKeeps(s: State, g: nat, ok: bool)
    requires Inv(s) && Enabled(s, Return(g, ok))
    ensures Inv(Next(s, Return(g, ok)))
  {
    var s' := Next(s, Return(g, ok));
    var c := s.sagas[g].call.value;
    assert Shaped(s.sagas[g]) && Waits(g, s.sagas[g], s.calls);
    assert s'.sagas == s.sagas[g := s'.sagas[g]] && s'.calls == s.calls[c := s.calls[c].(awaited := false)];
    EndWaitKeepsSagas(s, g, s'.sagas[g]);
    EndWaitKeepsCalls(s, g, s'.sagas[g]);
    RowsFollow(s, s'.sagas, g);
  }

  /** A saga stops waiting for its call. */
  lemma {:induction false} EndWaitKeepsSagas(s: State, g: nat, x: Saga)
    requires SagasOk(s.sagas, s.calls, s.orders)
    requires g < |s.sagas| && s.sagas[g].call.Some? && s.sagas[g].call.value < |s.calls|
    requires Shaped(x) && x.call.None? && x.kind == s.sagas[g].kind && !x.phase.Holding?
    requires Committed(x) ==> Committed(s.sagas[g])
    ensures var c := s.sagas[g].call.value;
            SagasOk(s.sagas[g := x], s.calls[c := s.calls[c].(awaited := false)], s.orders)
  {
  }

  lemma {:induction false} EndWaitKeepsCalls(s: State, g: nat, x: Saga)
    requires CallsOk(s.calls, s.sagas, s.redis)
    requires g < |s.sagas| && s.sagas[g].call.Some? && s.sagas[g].call.value < |s.calls|
    requires x.items == s.sagas[g].items && x.lo == s.sagas[g].lo
    ensures var c := s.sagas[g].call.value;
            CallsOk(s.calls[c := s.calls[c].(awaited := false)], s.sagas[g := x], s.redis)
  {
  }

  /** Rows do not notice a change of a saga that keeps its lock, its kind and its cancellation. */
  lemma {:induction false} RowsFollow(s: State, sagas': seq<Saga>, g: nat)
    requires Inv(s) && g < |s.sagas| && |sagas'| >= |s.sagas|
    requires forall h :: 0 <= h < |s.sagas| && h != g ==> sagas'[h] == s.sagas[h]
    requires sagas'[g].kind == s.sagas[g].kind && sagas'[g].items == s.sagas[g].items
    requires s.sagas[g].phase.Holding? ==> sagas'[g].phase.Holding?
    requires Committed(s.sagas[g]) ==> Committed(sagas'[g])
    ensures RowsOk(s.orders, sagas')
  {
  }

  lemma {:induction false} ArriveKeeps(s: State, k: Kind, items: seq<Item>)
    requires Inv(s) && Enabled(s, Arrive(k, items))
    ensures Inv(Next(s, Arrive(k, items)))
  {
  }

  /** Changing one saga and nothing else but appended rows, when it waits for nothing. */
  lemma {:induction false} SagaKeeps(s: State, g: nat, x: Saga, orders': seq<OrderRow>)
    requires Inv(s) && g < |s.sagas| && s.sagas[g].call.None? && x.call.None?
    requires Shaped(x) && OwnsRow(g, x, orders')
    requires x.items == s.sagas[g].items && (x.lo == s.sagas[g].lo || s.sagas[g].lo == 0)
    requires |orders'| >= |s.orders|
    requires forall r :: 0 <= r < |s.orders| ==>
      orders'[r].lock == s.orders[r].lock && orders'[r].status == s.orders[r].status
      && orders'[r].cancelledBy == s.orders[r].cancelledBy
    ensures SagasOk(s.sagas[g := x], s.calls, orders')
    ensures CallsOk(s.calls, s.sagas[g := x], s.redis)
  {
  }

  lemma {:induction false} StoreKeeps(s: State, e: Event, g: nat)
    requires Inv(s) && Enabled(s, e) && e in {CommitOrder(g), PushOrder(g), AbortOrder(g), Finish(g)}
    ensures Inv(Next(s, e))
  {
    var s' := Next(s, e);
    assert Shaped(s.sagas[g]) && OwnsRow(g, s.sagas[g], s.orders);
    SagaKeeps(s, g, s'.sagas[g], s'.orders);
    assert s'.sagas == s.sagas[g := s'.sagas[g]];
    RowsFollow(s, s'.sagas, g);
    forall r | 0 <= r < |s'.orders| ensures RowOk(r, s'.orders[r], s'.sagas) {
      if r < |s.orders| {
        assert RowOk(r, s.orders[r], s'.sagas);
      }
    }
  }

  /** A saga locks its row, or finds no row. */
  lemma {:induction false} OpenKeeps(s: State, g: nat)
    requires Inv(s) && Enabled(s, OpenRow(g))
    ensures Inv(Next(s, OpenRow(g)))
  {
    var s' := Next(s, OpenRow(g));
    assert Shaped(s.sagas[g]) && OwnsRow(g, s.sagas[g], s.orders);
    RowLockStep(s, s', g);
  }

  /** Any change of one saga that owns no stock together with its own row: lock, unlock, confirm, cancel. */
  lemma {:induction false} RowLockStep(s: State, s': State, g: nat)
    requires Inv(s) && g < |s.sagas| && !Creates(s.sagas[g].kind) && s.sagas[g].items == [] && s.sagas[g].call.None?
    requires |s'.sagas| == |s.sagas| && |s'.orders| == |s.orders|
    requires s' == s.(sagas := s'.sagas, orders := s'.orders)
    requires forall h :: 0 <= h < |s.sagas| && h != g ==> s'.sagas[h] == s.sagas[h]
    requires s'.sagas[g].kind == s.sagas[g].kind && s'.sagas[g].call.None?
    requires Shaped(s'.sagas[g]) && OwnsRow(g, s'.sagas[g], s'.orders)
    requires var r0 := s.sagas[g].kind.row;
             && (forall r :: 0 <= r < |s.orders| && r != r0 ==> s'.orders[r] == s.orders[r])
             && (r0 < |s.orders| ==>
                  && RowOk(r0, s'.orders[r0], s'.sagas)
                  && (s.orders[r0].lock.None? || s.orders[r0].lock == Some(g))
                  && (s.orders[r0].cancelledBy.Some? ==> s'.orders[r0].cancelledBy == s.orders[r0].cancelledBy))
    requires !Committed(s.sagas[g])
    ensures Inv(s')
  {
  }

  lemma {:induction false} UnlockKeeps(s: State, e: Event, g: nat)
    requires Inv(s) && Enabled(s, e) && e in {Rollback(g), CommitCancel(g), CommitConfirm(g)}
    ensures Inv(Next(s, e))
  {
    var s' := Next(s, e);
    assert Shaped(s.sagas[g]) && Waits(g, s.sagas[g], s.calls) && OwnsRow(g, s.sagas[g], s.orders);
    assert RowOk(s.sagas[g].kind.row, s.orders[s.sagas[g].kind.row], s.sagas);
    RowLockStep(s, s', g);
  }

  lemma {:induction false} QueueKeeps(s: State, e: Event)
    requires Inv(s) && Enabled(s, e) && e in {Pop, Persist, DropOrder}
    ensures Inv(Next(s, e))
  {
  }

  lemma {:induction false} OpenDealKeeps(s: State, p: ProductId, read: int)
    requires Inv(s) && Enabled(s, StartHotdeal(p, read))
    ensures Inv(Next(s, StartHotdeal(p, read)))
  {
  }

  lemma {:induction false} CloseDealKeeps(s: State, p: ProductId, written: bool)
    requires Inv(s) && Enabled(s, EndHotdeal(p, written))
    ensures Inv(Next(s, EndHotdeal(p, written)))
  {
    RecordKeeps(s.had, s.db, Next(s, EndHotdeal(p, written)).db);
  }

  /** The one step by which a call of each kind succeeds. */
  predicate Completes(k: Kind, g: nat, e: Event) {
    match k
    case Create => e == CommitOrder(g)
    case Async => e == PushOrder(g)
    case Cancel(_) => e == Finish(g)
    case Confirm(_) => e == CommitConfirm(g)
  }

  /** How one saga may change in one step. Finished is final; what a creating call buys never changes; a cancel call
      takes over the items of its order whole; a call succeeds by the step of its kind and no other. */
  ghost predicate Evolves(x: Saga, x': Saga, g: nat, e: Event) {
    && x'.kind == x.kind
    && (x.phase.Finished? && x.call.None? ==> x' == x)
    && (Creates(x.kind) || Committed(x) ==> x'.items == x.items)
    && (Committed(x) ==> Committed(x') && x'.hi == x.hi)
    && (Committed(x') && !Committed(x) ==> e == CommitCancel(g) && x'.lo == 0 && x'.hi == |x'.items|)
    && (x'.phase == Finished(true) <==> x.phase == Finished(true) || Completes(x.kind, g, e))
    && (!e.Send? && !e.CommitCancel? ==>
        x.lo <= |x.items| && x'.lo <= |x'.items| && x'.items[..x'.lo] == x.items[..x.lo])
  }

  lemma {:induction false} UnnamedStays(s: State, e: Event, g: nat)
    requires Enabled(s, e) && g < |s.sagas| && !(OnSaga(e) && e.g == g)
    ensures g < |Next(s, e).sagas| && Next(s, e).sagas[g] == s.sagas[g]
  {
    StepFrame(s, e);
  }

  lemma {:induction false} UnchangedEvolves(x: Saga, g: nat, e: Event)
    requires Shaped(x) && !(OnSaga(e) && e.g == g)
    ensures Evolves(x, x, g, e)
  {
  }

  lemma {:induction false} WaitEvolves(s: State, e: Event)
    requires Enabled(s, e) && OnSaga(e) && OnCalls(e) && e.g < |s.sagas| && Shaped(s.sagas[e.g])
    ensures Evolves(s.sagas[e.g], Next(s, e).sagas[e.g], e.g, e)
  {
  }

  lemma {:induction false} OrderEvolves(s: State, e: Event)
    requires Enabled(s, e) && OnSaga(e) && !OnCalls(e) && e.g < |s.sagas| && Shaped(s.sagas[e.g])
    ensures Evolves(s.sagas[e.g], Next(s, e).sagas[e.g], e.g, e)
  {
  }

  lemma {:induction false} SagaEvolves(s: State, e: Event, g: nat)
    requires Enabled(s, e) && g < |s.sagas| && Shaped(s.sagas[g])
    ensures g < |Next(s, e).sagas| && Evolves(s.sagas[g], Next(s, e).sagas[g], g, e)
  {
    if !(OnSaga(e) && e.g == g) {
      UnnamedStays(s, e, g);
      UnchangedEvolves(s.sagas[g], g, e);
    } else if OnCalls(e) {
      WaitEvolves(s, e);
    } else {
      OrderEvolves(s, e);
    }
  }

  lemma {:induction false} CallStepKeepsInv(s: State, e: Event)
    requires Inv(s) && Enabled(s, e) && OnCalls(e)
    ensures Inv(Next(s, e))
  {
    match e
    case Send(g) => SendKeeps(s, g);
    case Route(c, seen) => RouteKeeps(s, c, seen);
    case Admit(c) => AdmitKeeps(s, c);
    case RunRedis(c) => RedisKeeps(s, c);
    case RunWorker(f) => WorkerKeeps(s, f);
    case FailCall(c) => FailKeeps(s, c);
    case Return(g, ok) => ReturnKeeps(s, g, ok);
  }

  lemma {:induction false} SagaStepKeepsInv(s: State, e: Event)
    requires Inv(s) && Enabled(s, e) && OnSaga(e) && !OnCalls(e)
    ensures Inv(Next(s, e))
  {
    match e
    case CommitOrder(g) => StoreKeeps(s, e, g);
    case PushOrder(g) => StoreKeeps(s, e, g);
    case AbortOrder(g) => StoreKeeps(s, e, g);
    case Finish(g) => StoreKeeps(s, e, g);
    case OpenRow(g) => OpenKeeps(s, g);
    case Rollback(g) => UnlockKeeps(s, e, g);
    case CommitCancel(g) => UnlockKeeps(s, e, g);
    case CommitConfirm(g) => UnlockKeeps(s, e, g);
  }

  lemma {:induction false} OtherStepKeepsInv(s: State, e: Event)
    requires Inv(s) && Enabled(s, e) && !OnSaga(e) && !OnCalls(e)
    ensures Inv(Next(s, e))
  {
    match e
    case Arrive(k, items) => ArriveKeeps(s, k, items);
    case Pop => QueueKeeps(s, e);
    case Persist => QueueKeeps(s, e);
    case DropOrder => QueueKeeps(s, e);
    case StartHotdeal(p, read) => OpenDealKeeps(s, p, read);
    case EndHotdeal(p, written) => CloseDealKeeps(s, p, written);
  }

  lemma {:induction false} StepKeepsInv(s: State, e: Event)
    requires Inv(s) && Enabled(s, e)
    ensures Inv(Next(s, e))
  {
    if OnCalls(e) {
      CallStepKeepsInv(s, e);
    } else if OnSaga(e) {
      SagaStepKeepsInv(s, e);
    } else {
      OtherStepKeepsInv(s, e);
    }
  }

  lemma {:induction false} RunKeepsInv(s: State, evs: seq<Event>)
    requires Inv(s) && Executable(s, evs)
    ensures Inv(Run(s, evs))
    decreases |evs|
  {
    if evs != [] {
      StepKeepsInv(s, evs[0]);
      RunKeepsInv(Next(s, evs[0]), evs[1..]);
    }
  }
}
