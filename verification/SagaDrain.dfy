/** Once arrivals stop, the system comes to rest: every step uses up work, some step is always possible, and at the
    end nothing is left in any queue. */
module SagaDrain {
  import opened Common
  import opened Sums
  import opened ProductDb
  import opened Pricing
  import opened SagaSystem
  import opened SagaInvariant
  import opened SagaLedger
  import opened SagaConservation
  import StockQueue

  // ----- Remaining work -----

  ghost function StepsOf(): Call -> int {
    (k: Call) => match k.stage
      case Sent => 3
      case Queueing => 2
      case AtRedis => 1
      case InChannel => 1
      case Done(_) => 0
  }

  /** Five steps for each item still to take or to give back: send, route, enter the channel, apply, return. */
  ghost function WorkOf(): Saga -> int {
    (x: Saga) => match x.phase
      case Reserving => 5 * (|x.items| - x.hi) + 5 * |x.items| + 3 + (if x.call.Some? then -4 else 0)
      case Restoring => 5 * (x.hi - x.lo) + 1 + (if x.call.Some? then 1 else 0)
      case Opening => 2
      case Holding(_) => 1
      case Finished(_) => 0
  }

  ghost function UndecidedCancel(): Saga -> int {
    (x: Saga) => if x.kind.Cancel? && (x.phase.Opening? || x.phase.Holding?) then 1 else 0
  }

  /** Cancels that have not decided yet: deciding one creates work, so they count first. */
  ghost function Undecided(s: State): int {
    Sum(s.sagas, UndecidedCancel())
  }

  ghost function Work(s: State): int {
    Sum(s.sagas, WorkOf()) + Sum(s.calls, StepsOf()) + 2 * |s.list| + |s.worker|
  }

  ghost predicate Less(s': State, s: State) {
    Undecided(s') < Undecided(s) || (Undecided(s') == Undecided(s) && Work(s') < Work(s))
  }

  lemma {:induction false} MeasureNonNegative(s: State)
    requires Inv(s)
    ensures Undecided(s) >= 0 && Work(s) >= 0
  {
    SumNonNegative(s.sagas, UndecidedCancel());
    SumNonNegative(s.calls, StepsOf());
    forall g | 0 <= g < |s.sagas| ensures WorkOf()(s.sagas[g]) >= 0 {
      assert Shaped(s.sagas[g]);
    }
    SumNonNegative(s.sagas, WorkOf());
  }

  /** Neither a new order call nor a deal opened or closed. */
  predicate Consumes(e: Event) {
    !e.Arrive? && !e.StartHotdeal? && !e.EndHotdeal?
  }

  lemma {:induction false} CallStepUsesWork(s: State, e: Event)
    requires Enabled(s, e) && (e.Route? || e.Admit? || e.RunRedis? || e.RunWorker? || e.FailCall?)
    requires e.RunWorker? ==> s.calls[s.channel[0]].stage.InChannel?
    ensures Less(Next(s, e), s)
  {
    var s' := Next(s, e);
    var c := if e.RunWorker? then s.channel[0] else e.c;
    SumUpdate(s.calls, c, s'.calls[c], StepsOf());
    assert s'.calls == s.calls[c := s'.calls[c]];
  }

  lemma {:induction false} WaitStepUsesWork(s: State, e: Event)
    requires Enabled(s, e) && (e.Send? || e.Return?) && Shaped(s.sagas[e.g])
    ensures Less(Next(s, e), s)
  {
    var s' := Next(s, e);
    var x, x' := s.sagas[e.g], s'.sagas[e.g];
    SumUpdate(s.sagas, e.g, x', WorkOf());
    SumUpdate(s.sagas, e.g, x', UndecidedCancel());
    if e.Send? {
      SumAppend(s.calls, s'.calls[|s.calls|], StepsOf());
    } else {
      var c := x.call.value;
      SumUpdate(s.calls, c, s'.calls[c], StepsOf());
    }
  }

  lemma {:induction false} SagaStepUsesWork(s: State, e: Event)
    requires Enabled(s, e) && Consumes(e) && !e.Send? && !e.Return?
    requires !e.Route? && !e.Admit? && !e.RunRedis? && !e.RunWorker? && !e.FailCall?
    requires !e.Pop? && !e.Persist? && !e.DropOrder?
    requires Shaped(s.sagas[e.g])
    ensures Less(Next(s, e), s)
  {
    var x' := Next(s, e).sagas[e.g];
    SumUpdate(s.sagas, e.g, x', WorkOf());
    SumUpdate(s.sagas, e.g, x', UndecidedCancel());
  }

  /** Every consuming step strictly decreases the measure. */
  lemma {:induction false} StepUsesWork(s: State, e: Event)
    requires Inv(s) && Enabled(s, e) && Consumes(e)
    ensures Less(Next(s, e), s)
  {
    if e.Route? || e.Admit? || e.RunRedis? || e.RunWorker? || e.FailCall? {
      CallStepUsesWork(s, e);
    } else if e.Pop? || e.Persist? || e.DropOrder? {
      assert |s.worker| <= 1;
    } else if e.Send? || e.Return? {
      assert Shaped(s.sagas[e.g]);
      WaitStepUsesWork(s, e);
    } else {
      assert Shaped(s.sagas[e.g]);
      SagaStepUsesWork(s, e);
    }
  }

  // ----- Rest -----

  ghost predicate AtRest(s: State) {
    && (forall g :: 0 <= g < |s.sagas| ==> s.sagas[g].phase.Finished?)
    && (forall c :: 0 <= c < |s.calls| ==> s.calls[c].stage.Done?)
    && s.list == [] && s.worker == []
  }

  /** The step that moves call `c` on. */
  ghost function MoveCall(s: State, c: nat): Event
    requires Inv(s) && c < |s.calls| && !s.calls[c].stage.Done?
  {
    match s.calls[c].stage
    case Sent => Route(c, s.calls[c].product in s.redis)
    case AtRedis => RunRedis(c)
    case Queueing => if |s.channel| < StockQueue.CAPACITY then Admit(c) else RunWorker(NoFault)
    case _ => RunWorker(NoFault)
  }

  lemma {:induction false} CallCanMove(s: State, c: nat)
    requires Inv(s) && c < |s.calls| && !s.calls[c].stage.Done?
    ensures Enabled(s, MoveCall(s, c)) && Consumes(MoveCall(s, c))
  {
  }

  /** The step that moves saga `g` on when no remote update is under way; a saga that waits for a row lock is
      helped by finishing the transaction that holds it. */
  ghost function MoveSaga(s: State, g: nat): Event
    requires g < |s.sagas| && !s.sagas[g].phase.Finished?
    requires s.sagas[g].call.Some? ==> s.sagas[g].call.value < |s.calls|
    requires s.sagas[g].phase.Opening? ==> !Creates(s.sagas[g].kind)
  {
    var x := s.sagas[g];
    if x.call.Some? then
      Return(g, s.calls[x.call.value].stage == Done(true))
    else
      match x.phase
      case Reserving =>
        if x.hi < |x.items| then Send(g)
        else if x.kind.Async? then PushOrder(g)
        else if RowsAccepted(x.items) then CommitOrder(g) else AbortOrder(g)
      case Restoring => if x.lo < x.hi then Send(g) else Finish(g)
      case Opening =>
        if x.kind.row < |s.orders| && s.orders[x.kind.row].lock.Some?
        then EndTransaction(s, s.orders[x.kind.row].lock.value)
        else OpenRow(g)
      case _ => EndTransaction(s, g)
  }

  /** Commit if the status read allows it, roll back otherwise. */
  ghost function EndTransaction(s: State, g: nat): Event {
    if g < |s.sagas| && s.sagas[g].phase.Holding? && s.sagas[g].kind.Cancel?
       && s.sagas[g].phase.seen in {Pending, Confirmed}
    then CommitCancel(g)
    else if g < |s.sagas| && s.sagas[g].phase.Holding? && s.sagas[g].kind.Confirm? && s.sagas[g].phase.seen == Pending
    then CommitConfirm(g)
    else Rollback(g)
  }

  lemma {:induction false} SagaCanMove(s: State, g: nat)
    requires Inv(s) && g < |s.sagas| && !s.sagas[g].phase.Finished?
    ensures s.sagas[g].call.Some? ==> s.sagas[g].call.value < |s.calls|
    ensures s.sagas[g].phase.Opening? ==> !Creates(s.sagas[g].kind)
    ensures Enabled(s, MoveSaga(s, g)) && Consumes(MoveSaga(s, g))
  {
    var x := s.sagas[g];
    assert Shaped(x) && Waits(g, x, s.calls) && OwnsRow(g, x, s.orders);
    if x.phase.Holding? {
      HolderCanEnd(s, g);
    } else if x.phase.Opening? && x.kind.row < |s.orders| && s.orders[x.kind.row].lock.Some? {
      var h := s.orders[x.kind.row].lock.value;
      assert RowOk(x.kind.row, s.orders[x.kind.row], s.sagas);
      HolderCanEnd(s, h);
    }
  }

  lemma {:induction false} HolderCanEnd(s: State, g: nat)
    requires g < |s.sagas| && s.sagas[g].phase.Holding? && !Creates(s.sagas[g].kind)
    requires s.sagas[g].kind.row < |s.orders|
    ensures Enabled(s, EndTransaction(s, g)) && Consumes(EndTransaction(s, g))
  {
  }

  /** No deadlock: unless everything is at rest, some step is possible that uses up work. */
  lemma {:induction false} CanMove(s: State) returns (e: Event)
    requires Inv(s) && !AtRest(s)
    ensures Enabled(s, e) && Consumes(e)
  {
    if c :| 0 <= c < |s.calls| && !s.calls[c].stage.Done? {
      CallCanMove(s, c);
      e := MoveCall(s, c);
    } else if g :| 0 <= g < |s.sagas| && !s.sagas[g].phase.Finished? {
      SagaCanMove(s, g);
      e := MoveSaga(s, g);
    } else if s.worker != [] {
      e := if RowsAccepted(s.worker[0].items) then Persist else DropOrder;
    } else {
      e := Pop;
    }
  }

  // ----- Main results -----

  ghost predicate NoArrivals(evs: seq<Event>) {
    forall i :: 0 <= i < |evs| ==> Consumes(evs[i])
  }

  /** Along any run without arrivals the measure keeps falling. */
  lemma {:induction false} RunsUseWork(s: State, evs: seq<Event>)
    requires Inv(s) && Executable(s, evs) && NoArrivals(evs) && evs != []
    ensures Inv(Run(s, evs)) && Less(Run(s, evs), s)
    decreases |evs|
  {
    StepUsesWork(s, evs[0]);
    StepKeepsInv(s, evs[0]);
    if |evs| > 1 {
      assert evs[1..] != [];
      RunsUseWork(Next(s, evs[0]), evs[1..]);
    } else {
      assert evs[1..] == [];
    }
  }

  /** From every reachable state the system can run to rest, and a run can only go on until it is. */
  lemma {:induction false} Drains(s: State) returns (evs: seq<Event>)
    requires Inv(s)
    ensures Executable(s, evs) && NoArrivals(evs) && Inv(Run(s, evs)) && AtRest(Run(s, evs))
    decreases Undecided(s), Work(s)
  {
    MeasureNonNegative(s);
    if AtRest(s) {
      evs := [];
    } else {
      var e := CanMove(s);
      StepUsesWork(s, e);
      StepKeepsInv(s, e);
      MeasureNonNegative(Next(s, e));
      var rest := Drains(Next(s, e));
      evs := [e] + rest;
      assert evs[1..] == rest;
    }
  }

  /** Nothing can move at rest, so a run without arrivals ends exactly there. */
  lemma {:induction false} RestIsTheOnlyEnd(s: State)
    requires Inv(s)
    ensures AtRest(s) <==> forall e :: Enabled(s, e) ==> !Consumes(e)
  {
    if AtRest(s) {
      forall g | 0 <= g < |s.sagas| ensures s.sagas[g].call.None? {
        assert Shaped(s.sagas[g]);
      }
    } else {
      var e := CanMove(s);
    }
  }

  /** At rest after any run, what is for sale plus what was sold is what there was, less what was lost, plus what was
      minted. */
  lemma {:induction false} AtRestBooks(supply: StockTable, evs: seq<Event>, p: ProductId)
    requires ValidTable(supply) && Executable(Initial(supply), evs) && AtRest(Run(Initial(supply), evs))
    ensures var s0 := Initial(supply);
            Available(Run(s0, evs), p) + Sold(Run(s0, evs), p)
            == Supply(supply, p) - TotalLoss(s0, evs, p) + TotalMint(s0, evs, p)
  {
    BooksOfAnyRun(supply, evs, p);
    NothingHeldAtRest(Run(Initial(supply), evs), p);
  }

  /** At rest after a clean run, what is for sale plus what was sold is what there was. */
  lemma {:induction false} AtRestStockPlusSoldIsSupply(supply: StockTable, evs: seq<Event>, p: ProductId)
    requires ValidTable(supply) && Executable(Initial(supply), evs)
    requires CleanRun(Initial(supply), evs)
    requires AtRest(Run(Initial(supply), evs))
    ensures var s := Run(Initial(supply), evs); Available(s, p) + Sold(s, p) == Supply(supply, p)
  {
    InitialOk(supply);
    CleanRunBalances(Initial(supply), evs, p);
    NothingHeldAtRest(Run(Initial(supply), evs), p);
  }

  lemma {:induction false} NothingHeldAtRest(s: State, p: ProductId)
    requires Inv(s) && AtRest(s)
    ensures Promised(s, p) == Sold(s, p)
  {
    forall c | 0 <= c < |s.calls| ensures InFlight(p)(s.calls[c]) == 0 {
      assert CallOk(c, s.calls[c], s.sagas, s.redis);
      assert Shaped(s.sagas[s.calls[c].saga]);
    }
    SumZero(s.calls, InFlight(p));
    forall g | 0 <= g < |s.sagas| ensures HeldBy(p)(s.sagas[g]) == 0 {
      assert Shaped(s.sagas[g]);
      assert s.sagas[g].items[s.sagas[g].lo..s.sagas[g].hi] == [];
    }
    SumZero(s.sagas, HeldBy(p));
  }

  /** Money at the end, and at every moment before: within the API's limits each stored total is the true sum of
      price times quantity. */
  lemma {:induction false} StoredMoneyIsExact(supply: StockTable, evs: seq<Event>, r: nat)
    requires ValidTable(supply) && Executable(Initial(supply), evs)
    requires r < |Run(Initial(supply), evs).orders| && WithinLimits(Run(Initial(supply), evs).orders[r].items)
    ensures var o := Run(Initial(supply), evs).orders[r]; o.total == Sum(o.items, ExactSubtotal())
  {
    RunKeepsInv(Initial(supply), evs);
    var s := Run(Initial(supply), evs);
    assert RowOk(r, s.orders[r], s.sagas);
    MoneyIsExact(s.orders[r].items);
  }
}
