/** The stock ledger over every interleaving: where every unit of every product is, and exactly which steps lose units
    or mint them. */
module SagaLedger {
  import opened Common
  import opened Int32
  import opened Sums
  import opened ProductDb
  import opened Pricing
  import opened SagaSystem
  import opened SagaFrame
  import opened SagaInvariant

  // ----- Who holds how much -----

  /** Stock that can still be sold: the counter while a deal is open, the row otherwise. */
  ghost function Available(s: State, p: ProductId): int {
    if p in s.redis then s.redis[p] else if p in s.db then s.db[p] else 0
  }

  /** A refund on its way, or a decrement that took effect and whose caller has yet to learn it. */
  ghost function InFlight(p: ProductId): Call -> int {
    (k: Call) =>
      if k.product != p then 0
      else if k.delta > 0 then (if k.stage.Done? then 0 else k.delta)
      else if k.stage == Done(true) && k.awaited then -k.delta else 0
  }

  ghost function HeldBy(p: ProductId): Saga -> int {
    (x: Saga) => if x.lo <= x.hi <= |x.items| then QuantityOf(x.items[x.lo..x.hi], p) else 0
  }

  ghost function Bought(p: ProductId): OrderRow -> int {
    (o: OrderRow) => if o.status == Cancelled then 0 else QuantityOf(o.items, p)
  }

  ghost function Queued(p: ProductId): OrderRequest -> int {
    (q: OrderRequest) => QuantityOf(q.items, p)
  }

  ghost function Sold(s: State, p: ProductId): int {
    Sum(s.orders, Bought(p))
  }

  /** Everything promised to someone, or owed back to the stock. */
  ghost function Promised(s: State, p: ProductId): int {
    Sum(s.calls, InFlight(p)) + Sum(s.sagas, HeldBy(p)) + Sold(s, p)
    + Sum(s.list, Queued(p)) + Sum(s.worker, Queued(p))
  }

  ghost function Ledger(s: State, p: ProductId): int {
    Available(s, p) + Promised(s, p)
  }

  // ----- Which steps lose or mint units -----

  /** The worker's step applies the update at the head of the channel. */
  ghost predicate WorkerApplies(s: State, fault: Fault)
    requires s.channel != [] && s.channel[0] < |s.calls|
  {
    LockedUpdate(s.db, s.calls[s.channel[0]].product, s.calls[s.channel[0]].delta, fault).1.Updated?
  }

  ghost predicate RedisApplies(s: State, c: nat)
    requires c < |s.calls|
  {
    RunRedisNext(s, c).calls[c].stage == Done(true)
  }

  /** Units of `p` that a step drops for good: a decrement whose caller was told it failed, a decrement applied for
      a caller that left, a refund that never reaches the stock on sale, an accepted order that the worker drops, a
      deal opened with less than the row has, or closed with a row that shows less than its counter. */
  ghost function Loss(s: State, e: Event, p: ProductId): int
    requires Enabled(s, e)
  {
    match e
    case RunRedis(c) =>
      var k := s.calls[c];
      if k.product == p && k.delta < 0 && !k.awaited && RedisApplies(s, c) then -k.delta else 0
    case RunWorker(fault) =>
      var k := s.calls[s.channel[0]];
      if k.product != p then 0
      else if k.delta > 0 then (if WorkerApplies(s, fault) && p !in s.redis then 0 else k.delta)
      else if !k.awaited && WorkerApplies(s, fault) && p !in s.redis then -k.delta else 0
    case FailCall(c) =>
      var k := s.calls[c];
      if k.product == p && k.delta > 0 then k.delta else 0
    case Return(g, ok) =>
      var k := s.calls[s.sagas[g].call.value];
      if k.product == p && !ok && k.delta < 0 && k.stage == Done(true) then -k.delta else 0
    case DropOrder => QuantityOf(s.worker[0].items, p)
    case StartHotdeal(q, read) => if p == q then Positive(s.db[q] - read) else 0
    case EndHotdeal(q, _) => if p == q && p in s.db then Positive(s.redis[p] - Next(s, e).db[p]) else 0
    case _ => 0
  }

  /** Units of `p` that a step puts on sale, or promises, without taking them from anywhere: a decrement of the row
      while the counter is what is on sale, a deal opened with more than the row has, or closed with a row that shows
      more than its counter. */
  ghost function Mint(s: State, e: Event, p: ProductId): int
    requires Enabled(s, e)
  {
    match e
    case RunWorker(fault) =>
      var k := s.calls[s.channel[0]];
      if k.product == p && k.delta < 0 && k.awaited && WorkerApplies(s, fault) && p in s.redis then -k.delta else 0
    case StartHotdeal(q, read) => if p == q then Positive(read - s.db[q]) else 0
    case EndHotdeal(q, _) => if p == q && p in s.db then Positive(Next(s, e).db[p] - s.redis[p]) else 0
    case _ => 0
  }

  /** Exactly when a step mints units of `p`: the worker runs a decrement for a waiting caller, that the row can
      serve, while a deal on the product is open (its `HasStock` had gone unanswered); a deal is opened with an older,
      larger stock than the row's; or a deal is closed over a row that shows more than the counter, and nothing is
      written back: the write failed, or the counter is zero. */
  ghost predicate Mints(s: State, e: Event, p: ProductId)
    requires Enabled(s, e)
  {
    match e
    case RunWorker(fault) =>
      var k := s.calls[s.channel[0]];
      && k.product == p && p in s.redis && p in s.db
      && k.awaited && k.delta < 0 <= s.db[p] + k.delta && fault.NoFault?
    case StartHotdeal(q, read) => p == q && read > s.db[p]
    case EndHotdeal(q, written) => p == q && p in s.db && s.db[p] > s.redis[p] && !(written && s.redis[p] > 0)
    case _ => false
  }

  ghost function Supply(supply: StockTable, p: ProductId): int {
    if p in supply then supply[p] else 0
  }

  // ----- Every holder holds at least nothing -----

  lemma {:induction false} HeldNonNegative(x: Saga, p: ProductId)
    requires Shaped(x)
    ensures HeldBy(p)(x) >= 0
  {
    QuantityNonNegative(x.items[x.lo..x.hi], p);
  }

  lemma {:induction false} HoldersNonNegative(s: State, p: ProductId)
    requires Inv(s)
    ensures Available(s, p) >= 0 && Sum(s.calls, InFlight(p)) >= 0 && Sum(s.sagas, HeldBy(p)) >= 0
    ensures Sold(s, p) >= 0 && Sum(s.list, Queued(p)) >= 0 && Sum(s.worker, Queued(p)) >= 0
  {
    SumNonNegative(s.calls, InFlight(p));
    forall g | 0 <= g < |s.sagas| ensures HeldBy(p)(s.sagas[g]) >= 0 {
      HeldNonNegative(s.sagas[g], p);
    }
    SumNonNegative(s.sagas, HeldBy(p));
    forall r | 0 <= r < |s.orders| ensures Bought(p)(s.orders[r]) >= 0 {
      assert RowOk(r, s.orders[r], s.sagas);
      QuantityNonNegative(s.orders[r].items, p);
    }
    SumNonNegative(s.orders, Bought(p));
    forall k | 0 <= k < |s.list| ensures Queued(p)(s.list[k]) >= 0 {
      QuantityNonNegative(s.list[k].items, p);
    }
    SumNonNegative(s.list, Queued(p));
    forall k | 0 <= k < |s.worker| ensures Queued(p)(s.worker[k]) >= 0 {
      QuantityNonNegative(s.worker[k].items, p);
    }
    SumNonNegative(s.worker, Queued(p));
  }

  /** A refund on its way is part of the ledger, beside the stock it will be added to. */
  lemma {:induction false} RefundIsPromised(s: State, c: nat)
    requires Inv(s) && c < |s.calls| && s.calls[c].delta > 0 && !s.calls[c].stage.Done?
    ensures 0 < Available(s, s.calls[c].product) + s.calls[c].delta <= Ledger(s, s.calls[c].product)
  {
    var p := s.calls[c].product;
    HoldersNonNegative(s, p);
    SumAtLeast(s.calls, c, InFlight(p));
  }

  // ----- The ledger, step by step -----

  lemma {:induction false} StageLedger(s: State, c: nat, st: Stage, p: ProductId)
    requires c < |s.calls|
    ensures Promised(SetStage(s, c, st), p)
         == Promised(s, p) - InFlight(p)(s.calls[c]) + InFlight(p)(s.calls[c].(stage := st))
  {
    SumUpdate(s.calls, c, s.calls[c].(stage := st), InFlight(p));
  }

  /** One call of the saga `g` more, or one field of it changed, shows in two sums only. */
  lemma {:induction false} SendLedger(s: State, g: nat, p: ProductId)
    requires CanSend(s, g) && Shaped(s.sagas[g])
    ensures Ledger(SendNext(s, g), p) == Ledger(s, p)
  {
    var s' := SendNext(s, g);
    var x', k := s'.sagas[g], s'.calls[|s.calls|];
    SumAppend(s.calls, k, InFlight(p));
    SumUpdate(s.sagas, g, x', HeldBy(p));
    SentIsHeld(s, g, p);
  }

  /** What a restoring saga stops holding is what its new call carries. */
  lemma {:induction false} SentIsHeld(s: State, g: nat, p: ProductId)
    requires CanSend(s, g) && Shaped(s.sagas[g])
    ensures HeldBy(p)(SendNext(s, g).sagas[g]) + InFlight(p)(SendNext(s, g).calls[|s.calls|]) == HeldBy(p)(s.sagas[g])
  {
    var x := s.sagas[g];
    if x.phase.Restoring? {
      QuantityFirst(x.items, x.lo, x.hi, p);
      assert 1 <= x.items[x.lo].quantity;
    } else {
      assert 1 <= x.items[x.hi].quantity <= MAX;
    }
  }

  lemma {:induction false} ReturnLedger(s: State, g: nat, ok: bool, p: ProductId)
    requires Enabled(s, Return(g, ok))
    requires Shaped(s.sagas[g]) && Waits(g, s.sagas[g], s.calls)
    requires var c := s.sagas[g].call.value; CallOk(c, s.calls[c], s.sagas, s.redis)
    ensures Ledger(ReturnNext(s, g, ok), p) == Ledger(s, p) - Loss(s, Return(g, ok), p)
    ensures Loss(s, Return(g, ok), p) >= 0
  {
    var s' := ReturnNext(s, g, ok);
    var x, c := s.sagas[g], s.sagas[g].call.value;
    var x', k, k' := s'.sagas[g], s.calls[c], s'.calls[c];
    SumUpdate(s.calls, c, k', InFlight(p));
    SumUpdate(s.sagas, g, x', HeldBy(p));
    assert HeldBy(p)(x') + InFlight(p)(k') == HeldBy(p)(x) + InFlight(p)(k) - Loss(s, Return(g, ok), p) by {
      if x.phase.Reserving? && ok {
        QuantityLast(x.items, x.lo, x.hi, p);
      }
    }
  }

  lemma {:induction false} RedisLedger(s: State, c: nat, p: ProductId)
    requires Enabled(s, RunRedis(c)) && CallOk(c, s.calls[c], s.sagas, s.redis)
    ensures Ledger(RunRedisNext(s, c), p) == Ledger(s, p) - Loss(s, RunRedis(c), p)
    ensures Loss(s, RunRedis(c), p) >= 0
  {
    var s' := RunRedisNext(s, c);
    var k := s.calls[c];
    assert k.delta < 0 ==> Wrap(-k.delta) == -k.delta;
    StageLedger(s, c, s'.calls[c].stage, p);
    assert Promised(s', p) == Promised(SetStage(s, c, s'.calls[c].stage), p);
  }

  lemma {:induction false} WorkerLedger(s: State, fault: Fault, p: ProductId)
    requires Enabled(s, RunWorker(fault)) && ValidTable(s.db)
    requires CallOk(s.channel[0], s.calls[s.channel[0]], s.sagas, s.redis) && s.calls[s.channel[0]].stage.InChannel?
    ensures Ledger(RunWorkerNext(s, fault), p)
         == Ledger(s, p) - Loss(s, RunWorker(fault), p) + Mint(s, RunWorker(fault), p)
    ensures Loss(s, RunWorker(fault), p) >= 0
  {
    var s' := RunWorkerNext(s, fault);
    var c := s.channel[0];
    var k := s.calls[c];
    LockedUpdateIsExact(s.db, k.product, k.delta, fault);
    StageLedger(s, c, s'.calls[c].stage, p);
    assert Promised(s', p) == Promised(SetStage(s, c, s'.calls[c].stage), p);
  }

  lemma {:induction false} CallLedger(s: State, e: Event, c: nat, p: ProductId)
    requires Enabled(s, e) && (e == Admit(c) || e == FailCall(c) || (e.Route? && e.c == c))
    ensures Ledger(Next(s, e), p) == Ledger(s, p) - Loss(s, e, p)
    ensures Loss(s, e, p) >= 0
  {
    var s' := Next(s, e);
    StageLedger(s, c, s'.calls[c].stage, p);
    assert Promised(s', p) == Promised(SetStage(s, c, s'.calls[c].stage), p);
  }

  lemma {:induction false} ArriveLedger(s: State, k: Kind, items: seq<Item>, p: ProductId)
    requires Enabled(s, Arrive(k, items))
    ensures Ledger(Next(s, Arrive(k, items)), p) == Ledger(s, p)
  {
  }

  /** Storing an order moves its units from the call to the table or the queue. */
  lemma {:induction false} StoreLedger(s: State, e: Event, g: nat, p: ProductId)
    requires Enabled(s, e) && e in {CommitOrder(g), PushOrder(g), AbortOrder(g), Finish(g)} && Shaped(s.sagas[g])
    ensures Ledger(Next(s, e), p) == Ledger(s, p)
  {
    var s' := Next(s, e);
    var x := s.sagas[g];
    SumUpdate(s.sagas, g, s'.sagas[g], HeldBy(p));
    if e.CommitOrder? || e.PushOrder? {
      assert x.items[x.lo..x.hi] == x.items;
      assert x.items[0..0] == [];
      SumAppend(s.orders, NewRow(g, x.items, Pending), Bought(p));
      SumPrepend(OrderRequest(g, x.items), s.list, Queued(p));
    }
  }

  /** A call that locks a row or lets it go holds nothing, before and after. */
  lemma {:induction false} LockingHoldsNothing(s: State, e: Event, g: nat, p: ProductId)
    requires Enabled(s, e) && e in {OpenRow(g), Rollback(g), CommitConfirm(g)} && Shaped(s.sagas[g])
    ensures Sum(Next(s, e).sagas, HeldBy(p)) == Sum(s.sagas, HeldBy(p))
  {
    var x' := Next(s, e).sagas[g];
    SumUpdate(s.sagas, g, x', HeldBy(p));
    assert HeldBy(p)(x') == HeldBy(p)(s.sagas[g]);
  }

  /** A row that is locked, let go or confirmed is bought as before. */
  lemma {:induction false} LockingSellsNothing(s: State, e: Event, g: nat, p: ProductId)
    requires Enabled(s, e) && e in {OpenRow(g), Rollback(g), CommitConfirm(g)} && OwnsRow(g, s.sagas[g], s.orders)
    ensures Sold(Next(s, e), p) == Sold(s, p)
  {
    var r := s.sagas[g].kind.row;
    if r < |s.orders| {
      var o' := Next(s, e).orders[r];
      SumUpdate(s.orders, r, o', Bought(p));
      assert Bought(p)(o') == Bought(p)(s.orders[r]);
    }
  }

  /** Locking, unlocking and confirming keep the units where they are. */
  lemma {:induction false} RowLedger(s: State, e: Event, g: nat, p: ProductId)
    requires Enabled(s, e) && e in {OpenRow(g), Rollback(g), CommitConfirm(g)}
    requires Shaped(s.sagas[g]) && OwnsRow(g, s.sagas[g], s.orders)
    ensures Ledger(Next(s, e), p) == Ledger(s, p)
  {
    StepFrame(s, e);
    LockingHoldsNothing(s, e, g, p);
    LockingSellsNothing(s, e, g, p);
  }

  /** Cancelling moves the units from the row to the call that owes them back. */
  lemma {:induction false} CancelLedger(s: State, g: nat, p: ProductId)
    requires Enabled(s, CommitCancel(g)) && Shaped(s.sagas[g]) && OwnsRow(g, s.sagas[g], s.orders)
    ensures Ledger(Next(s, CommitCancel(g)), p) == Ledger(s, p)
  {
    var s' := Next(s, CommitCancel(g));
    var x, x', r := s.sagas[g], s'.sagas[g], s.sagas[g].kind.row;
    SumUpdate(s.sagas, g, x', HeldBy(p));
    SumUpdate(s.orders, r, s'.orders[r], Bought(p));
    assert x.items[x.lo..x.hi] == [];
    assert x'.items[x'.lo..x'.hi] == s.orders[r].items;
    assert s.orders[r].status != Cancelled;
  }

  lemma {:induction false} PopLedger(s: State, p: ProductId)
    requires Enabled(s, Pop)
    ensures Ledger(Next(s, Pop), p) == Ledger(s, p)
  {
  }

  lemma {:induction false} DisposeLedger(s: State, e: Event, p: ProductId)
    requires Enabled(s, e) && e in {Persist, DropOrder} && |s.worker| == 1 && Sane(s.worker[0].items)
    ensures Ledger(Next(s, e), p) == Ledger(s, p) - Loss(s, e, p)
    ensures Loss(s, e, p) >= 0
  {
    var q := s.worker[0];
    assert s.worker == [q];
    SumOne(q, Queued(p));
    QuantityNonNegative(q.items, p);
    if e.Persist? {
      SumAppend(s.orders, NewRow(q.id, q.items, Confirmed), Bought(p));
    }
  }

  /** Opening a deal replaces what is on sale, the row, by what was read of it; closing one replaces the counter by
      what the row then shows. */
  lemma {:induction false} DealLedger(s: State, e: Event, p: ProductId)
    requires Enabled(s, e) && (e.StartHotdeal? || e.EndHotdeal?) && StockOk(s.db, s.redis)
    ensures Ledger(Next(s, e), p) == Ledger(s, p) - Loss(s, e, p) + Mint(s, e, p)
  {
    assert Promised(Next(s, e), p) == Promised(s, p);
  }

  /** Steps on calls and on the sagas that wait for them. */
  lemma {:induction false} RemoteLedger(s: State, e: Event, p: ProductId)
    requires Inv(s) && Enabled(s, e)
    requires e.Send? || e.Return? || e.RunRedis? || e.RunWorker?
    ensures Ledger(Next(s, e), p) == Ledger(s, p) - Loss(s, e, p) + Mint(s, e, p)
    ensures Loss(s, e, p) >= 0
  {
    match e
    case Send(g) =>
      SendLedger(s, g, p);
    case Return(g, ok) =>
      var c := s.sagas[g].call.value;
      assert Waits(g, s.sagas[g], s.calls) && CallOk(c, s.calls[c], s.sagas, s.redis);
      ReturnLedger(s, g, ok, p);
    case RunRedis(c) =>
      assert CallOk(c, s.calls[c], s.sagas, s.redis);
      RedisLedger(s, c, p);
    case RunWorker(fault) =>
      assert CallOk(s.channel[0], s.calls[s.channel[0]], s.sagas, s.redis);
      WorkerLedger(s, fault, p);
  }

  /** Steps on sagas, rows and the order queue. */
  lemma {:induction false} OrderLedger(s: State, e: Event, p: ProductId)
    requires Inv(s) && Enabled(s, e)
    requires !(e.Send? || e.Return? || e.RunRedis? || e.RunWorker? || e.StartHotdeal? || e.EndHotdeal?)
    ensures Ledger(Next(s, e), p) == Ledger(s, p) - Loss(s, e, p)
    ensures Loss(s, e, p) >= 0
  {
    match e
    case Arrive(k, items) => ArriveLedger(s, k, items, p);
    case Route(c, _) => CallLedger(s, e, c, p);
    case Admit(c) => CallLedger(s, e, c, p);
    case FailCall(c) => CallLedger(s, e, c, p);
    case CommitOrder(g) => StoreLedger(s, e, g, p);
    case PushOrder(g) => StoreLedger(s, e, g, p);
    case AbortOrder(g) => StoreLedger(s, e, g, p);
    case Finish(g) => StoreLedger(s, e, g, p);
    case OpenRow(g) => RowLedger(s, e, g, p);
    case Rollback(g) => RowLedger(s, e, g, p);
    case CommitConfirm(g) => RowLedger(s, e, g, p);
    case CommitCancel(g) => CancelLedger(s, g, p);
    case Pop => PopLedger(s, p);
    case Persist => DisposeLedger(s, e, p);
    case DropOrder => DisposeLedger(s, e, p);
  }

  /** The accounting law of one step. */
  lemma {:induction false} StepLedger(s: State, e: Event, p: ProductId)
    requires Inv(s) && Enabled(s, e)
    ensures Ledger(Next(s, e), p) == Ledger(s, p) - Loss(s, e, p) + Mint(s, e, p)
    ensures Loss(s, e, p) >= 0 && Mint(s, e, p) >= 0
  {
    if e.StartHotdeal? || e.EndHotdeal? {
      DealLedger(s, e, p);
    } else if e.Send? || e.Return? || e.RunRedis? || e.RunWorker? {
      RemoteLedger(s, e, p);
    } else {
      OrderLedger(s, e, p);
    }
  }

  /** The four ways to mint are all there are, and each mints. */
  lemma {:induction false} MintIff(s: State, e: Event, p: ProductId)
    requires Inv(s) && Enabled(s, e)
    ensures Mint(s, e, p) > 0 <==> Mints(s, e, p)
    ensures Mint(s, e, p) > 0 ==> Loss(s, e, p) == 0
  {
    if e.RunWorker? {
      var c := s.channel[0];
      assert CallOk(c, s.calls[c], s.sagas, s.redis);
      LockedUpdateIsExact(s.db, s.calls[c].product, s.calls[c].delta, e.fault);
    }
  }

  /** A step raises the ledger of a product if and only if it mints. */
  lemma {:induction false} StepRaisesIff(s: State, e: Event, p: ProductId)
    requires Inv(s) && Enabled(s, e)
    ensures Ledger(Next(s, e), p) > Ledger(s, p) <==> Mints(s, e, p)
  {
    StepLedger(s, e, p);
    MintIff(s, e, p);
  }

  // ----- Over whole runs -----

  ghost function TotalLoss(s: State, evs: seq<Event>, p: ProductId): int
    requires Executable(s, evs)
    decreases |evs|
  {
    if evs == [] then 0 else Loss(s, evs[0], p) + TotalLoss(Next(s, evs[0]), evs[1..], p)
  }

  ghost function TotalMint(s: State, evs: seq<Event>, p: ProductId): int
    requires Executable(s, evs)
    decreases |evs|
  {
    if evs == [] then 0 else Mint(s, evs[0], p) + TotalMint(Next(s, evs[0]), evs[1..], p)
  }

  lemma {:induction false} RunLedger(s: State, evs: seq<Event>, p: ProductId)
    requires Inv(s) && Executable(s, evs)
    ensures Inv(Run(s, evs))
    ensures Ledger(Run(s, evs), p) == Ledger(s, p) - TotalLoss(s, evs, p) + TotalMint(s, evs, p)
    ensures TotalLoss(s, evs, p) >= 0 && TotalMint(s, evs, p) >= 0
    decreases |evs|
  {
    if evs != [] {
      StepLedger(s, evs[0], p);
      StepKeepsInv(s, evs[0]);
      RunLedger(Next(s, evs[0]), evs[1..], p);
    }
  }

  lemma {:induction false} InitialOk(supply: StockTable)
    requires ValidTable(supply)
    ensures Inv(Initial(supply))
    ensures forall p :: Ledger(Initial(supply), p) == Supply(supply, p)
  {
  }

  /** The books of any run: what can still be sold plus what is promised or owed back is what there was, minus exactly
      the units the run lost, plus exactly those it minted. */
  lemma {:induction false} BooksOfAnyRun(supply: StockTable, evs: seq<Event>, p: ProductId)
    requires ValidTable(supply) && Executable(Initial(supply), evs)
    ensures var s0 := Initial(supply);
            && Inv(Run(s0, evs))
            && Ledger(Run(s0, evs), p) == Supply(supply, p) - TotalLoss(s0, evs, p) + TotalMint(s0, evs, p)
            && TotalLoss(s0, evs, p) >= 0 && TotalMint(s0, evs, p) >= 0
  {
    InitialOk(supply);
    RunLedger(Initial(supply), evs, p);
  }

  /** No step of the run mints. */
  ghost predicate MintsNothing(s: State, evs: seq<Event>)
    requires Executable(s, evs)
    decreases |evs|
  {
    evs == [] || ((forall p :: !Mints(s, evs[0], p)) && MintsNothing(Next(s, evs[0]), evs[1..]))
  }

  /** No step of the run raises the ledger of any product. */
  ghost predicate NeverRises(s: State, evs: seq<Event>)
    requires Executable(s, evs)
    decreases |evs|
  {
    evs == []
    || ((forall p :: Ledger(Next(s, evs[0]), p) <= Ledger(s, p)) && NeverRises(Next(s, evs[0]), evs[1..]))
  }

  /** The ledger never rises in a run if and only if no step is one of the four that mint. */
  lemma {:induction false} LedgerNeverRisesIff(s: State, evs: seq<Event>)
    requires Inv(s) && Executable(s, evs)
    ensures NeverRises(s, evs) <==> MintsNothing(s, evs)
    decreases |evs|
  {
    if evs != [] {
      forall p ensures Ledger(Next(s, evs[0]), p) > Ledger(s, p) <==> Mints(s, evs[0], p) {
        StepRaisesIff(s, evs[0], p);
      }
      StepKeepsInv(s, evs[0]);
      LedgerNeverRisesIff(Next(s, evs[0]), evs[1..]);
    }
  }

  lemma {:induction false} MintFreeRun(s: State, evs: seq<Event>, p: ProductId)
    requires Inv(s) && Executable(s, evs) && MintsNothing(s, evs)
    ensures TotalMint(s, evs, p) == 0
    decreases |evs|
  {
    if evs != [] {
      MintIff(s, evs[0], p);
      StepLedger(s, evs[0], p);
      StepKeepsInv(s, evs[0]);
      MintFreeRun(Next(s, evs[0]), evs[1..], p);
    }
  }

  /** No oversell, whatever is refused, lost, abandoned or fails, in every run without a minting step: stock never goes
      negative, and the units in live orders, queued orders, running calls and refunds never exceed what there was,
      together with what is still for sale. */
  lemma {:induction false} NoOversell(supply: StockTable, evs: seq<Event>, p: ProductId)
    requires ValidTable(supply) && Executable(Initial(supply), evs) && MintsNothing(Initial(supply), evs)
    ensures var s := Run(Initial(supply), evs);
            && 0 <= Available(s, p)
            && Available(s, p) + Promised(s, p) <= Supply(supply, p)
            && 0 <= Sold(s, p) + Sum(s.list, Queued(p)) + Sum(s.worker, Queued(p)) <= Supply(supply, p)
  {
    BooksOfAnyRun(supply, evs, p);
    MintFreeRun(Initial(supply), evs, p);
    HoldersNonNegative(Run(Initial(supply), evs), p);
  }

  /** No row, no units: nothing is minted of a product that the table does not have. */
  lemma {:induction false} UnknownIsNeverMinted(s: State, evs: seq<Event>, p: ProductId)
    requires Inv(s) && Executable(s, evs) && p !in Run(s, evs).db
    ensures p !in s.db && TotalMint(s, evs, p) == 0
    decreases |evs|
  {
    if evs != [] {
      StepKeepsInv(s, evs[0]);
      UnknownIsNeverMinted(Next(s, evs[0]), evs[1..], p);
      RowsStay(s, evs[0], p);
      MintIff(s, evs[0], p);
      StepLedger(s, evs[0], p);
    }
  }

  lemma {:induction false} RowsStay(s: State, e: Event, p: ProductId)
    requires Enabled(s, e)
    ensures p in s.db ==> p in Next(s, e).db
  {
  }

  // ----- Refunds -----

  /** The worker applies a refund, with the database willing, exactly when the row it is added to stays an `int32`. */
  lemma {:induction false} RefundAppliesIff(s: State, c: nat)
    requires Inv(s) && c < |s.calls| && s.calls[c].delta > 0 && s.calls[c].product in s.db
    ensures var k := s.calls[c];
            LockedUpdate(s.db, k.product, k.delta, NoFault).1
            == if s.db[k.product] + k.delta <= MAX then Updated(s.db[k.product] + k.delta) else Insufficient
  {
    assert CallOk(c, s.calls[c], s.sagas, s.redis);
    LockedUpdateIsExact(s.db, s.calls[c].product, s.calls[c].delta, NoFault);
  }

  /** Over any run, a pending refund and the stock on sale (the counter while a deal is open, the row otherwise) never
      exceed together what there was and what was minted. */
  lemma {:induction false} RefundStaysWithin(supply: StockTable, evs: seq<Event>, c: nat)
    requires ValidTable(supply) && Executable(Initial(supply), evs)
    requires var s := Run(Initial(supply), evs);
             c < |s.calls| && s.calls[c].delta > 0 && !s.calls[c].stage.Done?
    ensures var s := Run(Initial(supply), evs);
            var k := s.calls[c];
            && Inv(s) && k.product in s.db
            && 0 < Available(s, k.product) + k.delta
                 <= Supply(supply, k.product) + TotalMint(Initial(supply), evs, k.product)
  {
    var s := Run(Initial(supply), evs);
    var p := s.calls[c].product;
    BooksOfAnyRun(supply, evs, p);
    RefundIsPromised(s, c);
    if p !in s.db {
      InitialOk(supply);
      UnknownIsNeverMinted(Initial(supply), evs, p);
    }
  }

  /** Whether a refund is refused, over any run. One that runs in Redis never is. The worker applies one, the database
      willing, if and only if its row stays an `int32`. Without minting, the stock on sale and the refund do stay one;
      so a refund bound for the row can be refused only while a deal on its product is open, an unanswered `HasStock`
      having sent it there. */
  lemma {:induction false} RefundsAlwaysFit(supply: StockTable, evs: seq<Event>, c: nat)
    requires ValidTable(supply) && Executable(Initial(supply), evs)
    requires var s := Run(Initial(supply), evs);
             c < |s.calls| && s.calls[c].delta > 0 && !s.calls[c].stage.Done?
    ensures var s := Run(Initial(supply), evs);
            var k := s.calls[c];
            var onSale := Available(s, k.product) + k.delta;
            var row := LockedUpdate(s.db, k.product, k.delta, NoFault).1;
            && 0 < onSale <= Supply(supply, k.product) + TotalMint(Initial(supply), evs, k.product)
            && (k.stage.AtRedis? ==> Enabled(s, RunRedis(c)) && RedisApplies(s, c)
                                     && Available(Next(s, RunRedis(c)), k.product) == onSale)
            && k.product in s.db
            && (row.Updated? <==> s.db[k.product] + k.delta <= MAX)
            && (k.product !in s.redis && row.Updated? ==> row.stock == onSale)
            && (MintsNothing(Initial(supply), evs) ==>
                onSale <= Supply(supply, k.product) <= MAX && (row.Updated? || k.product in s.redis))
  {
    var s := Run(Initial(supply), evs);
    RefundStaysWithin(supply, evs, c);
    RefundAppliesIff(s, c);
    assert CallOk(c, s.calls[c], s.sagas, s.redis);
    if MintsNothing(Initial(supply), evs) {
      InitialOk(supply);
      MintFreeRun(Initial(supply), evs, s.calls[c].product);
    }
  }
}
