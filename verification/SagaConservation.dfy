/** When the stock ledger balances exactly. */
module SagaConservation {
  import opened Int32
  import opened ProductDb
  import opened Pricing
  import opened SagaSystem
  import opened SagaInvariant
  import opened SagaLedger

  // ----- Exact conservation -----

  ghost predicate RowTakes(db: StockTable, k: Call, fault: Fault) {
    fault.NoFault? && k.product in db && 0 <= db[k.product] + k.delta <= MAX
  }

  /** Steps that move units but neither lose nor mint any. Decrements may be refused or fail, transactions abort,
      orders be cancelled, and refunds go unacknowledged; a deal may be opened on the stock the row shows, and closed
      if its counter is written back or is what the row shows. */
  ghost predicate Clean(s: State, e: Event)
    requires Enabled(s, e)
  {
    match e
    case RunRedis(c) =>
      var k := s.calls[c];
      k.delta >= 0 || k.awaited || (k.product in s.redis && s.redis[k.product] < -k.delta)
    case RunWorker(fault) =>
      var k := s.calls[s.channel[0]];
      if k.delta > 0 then RowTakes(s.db, k, fault) && k.product !in s.redis
      else RowTakes(s.db, k, fault) ==> (k.awaited <==> k.product !in s.redis)
    case FailCall(c) => s.calls[c].delta < 0
    case Return(g, ok) =>
      var k := s.calls[s.sagas[g].call.value];
      ok || k.delta > 0 || k.stage != Done(true)
    case DropOrder => s.worker[0].items == []
    case StartHotdeal(q, read) => read == s.db[q]
    case EndHotdeal(q, written) =>
      (written && 0 < s.redis[q] <= MAX) || (q in s.db && s.db[q] == s.redis[q])
    case _ => true
  }

  /** The product a step is about, where only one is. */
  ghost function Subject(s: State, e: Event): ProductId
    requires Enabled(s, e)
  {
    match e
    case RunRedis(c) => s.calls[c].product
    case RunWorker(_) => s.calls[s.channel[0]].product
    case FailCall(c) => s.calls[c].product
    case Return(g, _) => s.calls[s.sagas[g].call.value].product
    case DropOrder => if s.worker[0].items == [] then 0 else s.worker[0].items[0].product
    case StartHotdeal(q, _) => q
    case EndHotdeal(q, _) => q
    case _ => 0
  }

  lemma {:induction false} WorkerCleanIff(s: State, fault: Fault)
    requires Inv(s) && Enabled(s, RunWorker(fault))
    ensures var e := RunWorker(fault);
            && (Clean(s, e) ==> forall p :: Loss(s, e, p) == Mint(s, e, p) == 0)
            && (!Clean(s, e) ==> Loss(s, e, Subject(s, e)) + Mint(s, e, Subject(s, e)) > 0)
  {
    var c := s.channel[0];
    assert CallOk(c, s.calls[c], s.sagas, s.redis);
    LockedUpdateIsExact(s.db, s.calls[c].product, s.calls[c].delta, fault);
  }

  lemma {:induction false} RedisCleanIff(s: State, c: nat)
    requires Enabled(s, RunRedis(c)) && CallOk(c, s.calls[c], s.sagas, s.redis)
    ensures var e := RunRedis(c);
            && (Clean(s, e) ==> forall p :: Loss(s, e, p) == Mint(s, e, p) == 0)
            && (!Clean(s, e) ==> Loss(s, e, Subject(s, e)) > 0)
  {
  }

  lemma {:induction false} ReplyCleanIff(s: State, e: Event)
    requires Enabled(s, e) && (e.Return? || e.FailCall?)
    requires forall c :: 0 <= c < |s.calls| ==> s.calls[c].delta != 0
    ensures Clean(s, e) ==> forall p :: Loss(s, e, p) == Mint(s, e, p) == 0
    ensures !Clean(s, e) ==> Loss(s, e, Subject(s, e)) > 0
  {
  }

  lemma {:induction false} DropCleanIff(s: State)
    requires RequestsOk(s.list, s.worker) && Enabled(s, DropOrder)
    ensures Clean(s, DropOrder) ==> forall p :: Loss(s, DropOrder, p) == Mint(s, DropOrder, p) == 0
    ensures !Clean(s, DropOrder) ==> Loss(s, DropOrder, Subject(s, DropOrder)) > 0
  {
    var items := s.worker[0].items;
    if items != [] {
      var p := items[0].product;
      QuantityFirst(items, 0, |items|, p);
      QuantityNonNegative(items[1..|items|], p);
      assert items[0..|items|] == items;
    }
  }

  lemma {:induction false} DealCleanIff(s: State, e: Event)
    requires Inv(s) && Enabled(s, e) && (e.StartHotdeal? || e.EndHotdeal?)
    ensures Clean(s, e) ==> forall p :: Loss(s, e, p) == Mint(s, e, p) == 0
    ensures !Clean(s, e) ==> Loss(s, e, Subject(s, e)) + Mint(s, e, Subject(s, e)) > 0
  {
  }

  /** Steps on orders neither lose nor mint. */
  lemma {:induction false} OrderStepsAreClean(s: State, e: Event)
    requires Enabled(s, e) && !e.DropOrder? && !e.StartHotdeal? && !e.EndHotdeal?
    requires !e.RunWorker? && !e.RunRedis? && !e.Return? && !e.FailCall?
    ensures Clean(s, e) && forall p :: Loss(s, e, p) == Mint(s, e, p) == 0
  {
  }

  /** Clean steps are those that lose and mint nothing. */
  lemma {:induction false} CleanLosesAndMintsNothing(s: State, e: Event)
    requires Inv(s) && Enabled(s, e)
    ensures Clean(s, e) ==> forall p :: Loss(s, e, p) == Mint(s, e, p) == 0
    ensures !Clean(s, e) ==> Loss(s, e, Subject(s, e)) + Mint(s, e, Subject(s, e)) > 0
  {
    if e.RunWorker? {
      WorkerCleanIff(s, e.fault);
    } else if e.DropOrder? {
      DropCleanIff(s);
    } else if e.RunRedis? {
      assert CallOk(e.c, s.calls[e.c], s.sagas, s.redis);
      RedisCleanIff(s, e.c);
    } else if e.Return? || e.FailCall? {
      forall c | 0 <= c < |s.calls| ensures s.calls[c].delta != 0 {
        assert CallOk(c, s.calls[c], s.sagas, s.redis);
      }
      ReplyCleanIff(s, e);
    } else if e.StartHotdeal? || e.EndHotdeal? {
      DealCleanIff(s, e);
    } else {
      OrderStepsAreClean(s, e);
    }
  }

  ghost predicate SameLedger(s: State, s': State) {
    forall p :: Ledger(s', p) == Ledger(s, p)
  }

  /** A step keeps the ledger of every product if and only if it is clean. */
  lemma {:induction false} StepBalancesIff(s: State, e: Event)
    requires Inv(s) && Enabled(s, e)
    ensures SameLedger(s, Next(s, e)) <==> Clean(s, e)
  {
    CleanLosesAndMintsNothing(s, e);
    if Clean(s, e) {
      forall p ensures Ledger(Next(s, e), p) == Ledger(s, p) {
        StepLedger(s, e, p);
      }
    } else {
      var p := Subject(s, e);
      StepLedger(s, e, p);
      MintIff(s, e, p);
      assert Ledger(Next(s, e), p) != Ledger(s, p);
    }
  }

  ghost predicate CleanRun(s: State, evs: seq<Event>)
    requires Executable(s, evs)
    decreases |evs|
  {
    evs == [] || (Clean(s, evs[0]) && CleanRun(Next(s, evs[0]), evs[1..]))
  }

  ghost predicate Balanced(s: State, supply: StockTable) {
    forall p :: Ledger(s, p) == Supply(supply, p)
  }

  ghost predicate AlwaysBalanced(s: State, evs: seq<Event>, supply: StockTable)
    requires Executable(s, evs)
    decreases |evs|
  {
    Balanced(s, supply) && (evs == [] || AlwaysBalanced(Next(s, evs[0]), evs[1..], supply))
  }

  lemma {:induction false} BalancedRunIff(s: State, evs: seq<Event>, supply: StockTable)
    requires Inv(s) && Executable(s, evs) && Balanced(s, supply)
    ensures AlwaysBalanced(s, evs, supply) <==> CleanRun(s, evs)
    decreases |evs|
  {
    if evs != [] {
      var s' := Next(s, evs[0]);
      StepBalancesIff(s, evs[0]);
      StepKeepsInv(s, evs[0]);
      BalancedNextIff(s, s', supply);
      if Clean(s, evs[0]) {
        BalancedRunIff(s', evs[1..], supply);
      } else {
        assert !Balanced(s', supply);
      }
    }
  }

  lemma {:induction false} BalancedNextIff(s: State, s': State, supply: StockTable)
    requires Balanced(s, supply)
    ensures Balanced(s', supply) <==> SameLedger(s, s')
  {
    if SameLedger(s, s') {
      forall p ensures Ledger(s', p) == Supply(supply, p) {
        assert Ledger(s', p) == Ledger(s, p);
      }
    } else {
      var p :| Ledger(s', p) != Ledger(s, p);
      assert Ledger(s', p) != Supply(supply, p);
    }
  }

  /** Exact conservation: every unit of every product is accounted for at every moment of a run if and only if all its
      steps are clean; also when a call takes its stock inside a deal and gives it back after the deal, or the other
      way round. */
  lemma {:induction false} ExactConservation(supply: StockTable, evs: seq<Event>)
    requires ValidTable(supply) && Executable(Initial(supply), evs)
    ensures AlwaysBalanced(Initial(supply), evs, supply) <==> CleanRun(Initial(supply), evs)
  {
    InitialOk(supply);
    BalancedRunIff(Initial(supply), evs, supply);
  }

  lemma {:induction false} CleanRunBalances(s: State, evs: seq<Event>, p: ProductId)
    requires Inv(s) && Executable(s, evs) && CleanRun(s, evs)
    ensures Inv(Run(s, evs)) && Ledger(Run(s, evs), p) == Ledger(s, p)
    decreases |evs|
  {
    if evs != [] {
      StepBalancesIff(s, evs[0]);
      StepKeepsInv(s, evs[0]);
      CleanRunBalances(Next(s, evs[0]), evs[1..], p);
    }
  }

  // ----- Opening and closing a deal -----

  /** Opening a deal changes the ledger by what was read less what the row shows; so it keeps it if and only if the
      read was current. */
  lemma {:induction false} OpeningADealBalancesIff(s: State, p: ProductId, read: int)
    requires Inv(s) && Enabled(s, StartHotdeal(p, read))
    ensures var s' := Next(s, StartHotdeal(p, read));
            && Ledger(s', p) == Ledger(s, p) + read - s.db[p]
            && (SameLedger(s, s') <==> read == s.db[p])
  {
    StepLedger(s, StartHotdeal(p, read), p);
    StepBalancesIff(s, StartHotdeal(p, read));
  }

  /** Closing a deal changes the ledger by what the row then shows less the counter. It keeps it if and only if units
      are left and the write-back comes through (of a counter that is an `int32`), or the row showed what is left. */
  lemma {:induction false} ClosingADealBalancesIff(s: State, p: ProductId, written: bool)
    requires Inv(s) && Enabled(s, EndHotdeal(p, written))
    ensures var s' := Next(s, EndHotdeal(p, written));
            && p in s.db
            && Ledger(s', p) == Ledger(s, p) + s'.db[p] - s.redis[p]
            && (SameLedger(s, s') <==> (written && 0 < s.redis[p] <= MAX) || s.db[p] == s.redis[p])
  {
    StepLedger(s, EndHotdeal(p, written), p);
    StepBalancesIff(s, EndHotdeal(p, written));
  }

  /** The worker keeps the ledger through a decrement for a waiting caller if and only if the row refuses it or no deal
      on the product is open. */
  lemma {:induction false} MisroutedDecrementBalancesIff(s: State, fault: Fault)
    requires Inv(s) && Enabled(s, RunWorker(fault))
    requires s.calls[s.channel[0]].delta < 0 && s.calls[s.channel[0]].awaited
    ensures var k := s.calls[s.channel[0]];
            SameLedger(s, Next(s, RunWorker(fault))) <==> !RowTakes(s.db, k, fault) || k.product !in s.redis
  {
    StepBalancesIff(s, RunWorker(fault));
  }
}
