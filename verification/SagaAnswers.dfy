/** What callers are told, over every run of the order system: a call is told of success exactly when it did what it
    was asked to, and of any number of calls that confirm one order at most one is. */
module SagaAnswers {
  import opened Common
  import opened ProductDb
  import opened SagaSystem
  import opened SagaFrame
  import opened SagaInvariant
  import opened SagaPipeline

  // ----- Confirming -----

  /** Call `g` was told that it confirmed an order. */
  ghost predicate Told(sagas: seq<Saga>, g: nat) {
    g < |sagas| && sagas[g].kind.Confirm? && sagas[g].phase == Finished(true)
  }

  lemma {:induction false} ToldStep(s: State, e: Event, g: nat)
    requires SagasOk(s.sagas, s.calls, s.orders) && Enabled(s, e)
    ensures Told(Next(s, e).sagas, g) <==> Told(s.sagas, g) || e == CommitConfirm(g)
  {
    StepFrame(s, e);
    if g < |s.sagas| {
      assert Shaped(s.sagas[g]);
      SagaEvolves(s, e, g);
    }
  }

  lemma {:induction false} ToldByCommitIff(s: State, evs: seq<Event>, g: nat)
    requires Inv(s) && Executable(s, evs)
    ensures Told(Run(s, evs).sagas, g) <==> Told(s.sagas, g) || CommitConfirm(g) in evs
    decreases |evs|
  {
    if evs != [] {
      ToldStep(s, evs[0], g);
      StepKeepsInv(s, evs[0]);
      ToldByCommitIff(Next(s, evs[0]), evs[1..], g);
      assert evs == [evs[0]] + evs[1..];
    }
  }

  /** The calls that were told they confirmed order `r`. */
  ghost predicate ToldOf(sagas: seq<Saga>, g: nat, r: nat) {
    Told(sagas, g) && sagas[g].kind.row == r
  }

  /** A row that has been confirmed by a call is a direct order's and no longer pending; one call confirmed it; a
      confirmed row was confirmed by a call or stored by the worker; a pending one is a direct order's. */
  ghost predicate RowConfirms(o: OrderRow, r: nat, sagas: seq<Saga>) {
    && o.id < |sagas|
    && o.status in {Pending, Confirmed, Cancelled}
    && (forall g: nat :: ToldOf(sagas, g, r) ==> o.status != Pending && sagas[o.id].kind.Create?)
    && (forall g: nat, h: nat :: ToldOf(sagas, g, r) && ToldOf(sagas, h, r) ==> g == h)
    && (o.status == Confirmed ==> sagas[o.id].kind.Async? || exists g: nat :: ToldOf(sagas, g, r))
    && (o.status == Pending ==> sagas[o.id].kind.Create?)
  }

  ghost predicate Confirms(s: State) {
    && (forall g: nat :: Told(s.sagas, g) ==> s.sagas[g].kind.row < |s.orders|)
    && (forall r :: 0 <= r < |s.orders| ==> RowConfirms(s.orders[r], r, s.sagas))
  }

  /** A status becomes confirmed by a confirm call of that row, and cancelled by a cancel call. */
  lemma {:induction false} ConfirmedByCommit(s: State, e: Event, r: nat)
    requires Inv(s) && Enabled(s, e) && r < |s.orders|
    ensures r < |Next(s, e).orders|
    ensures var o, o' := s.orders[r], Next(s, e).orders[r];
            && o'.id == o.id
            && (o'.status == o.status || o'.status == Cancelled
                || (e.CommitConfirm? && s.sagas[e.g].kind == Confirm(r) && o.status == Pending
                    && o'.status == Confirmed))
            && (e.CommitConfirm? && s.sagas[e.g].kind == Confirm(r) ==> o.status == Pending && o'.status == Confirmed)
  {
    if e.CommitCancel? || e.CommitConfirm? {
      assert OwnsRow(e.g, s.sagas[e.g], s.orders);
    }
    ConfirmStep(s, e, r);
  }

  lemma {:induction false} ConfirmStep(s: State, e: Event, r: nat)
    requires Enabled(s, e) && r < |s.orders|
    requires e.CommitCancel? || e.CommitConfirm? ==> OwnsRow(e.g, s.sagas[e.g], s.orders)
    ensures r < |Next(s, e).orders|
    ensures var o, o' := s.orders[r], Next(s, e).orders[r];
            && o'.id == o.id
            && (o'.status == o.status || o'.status == Cancelled
                || (e.CommitConfirm? && s.sagas[e.g].kind == Confirm(r) && o.status == Pending
                    && o'.status == Confirmed))
            && (e.CommitConfirm? && s.sagas[e.g].kind == Confirm(r) ==> o.status == Pending && o'.status == Confirmed)
  {
    StepFrame(s, e);
  }

  lemma {:induction false} KindsStay(s: State, e: Event, g: nat)
    requires SagasOk(s.sagas, s.calls, s.orders) && Enabled(s, e) && g < |s.sagas|
    ensures g < |Next(s, e).sagas| && Next(s, e).sagas[g].kind == s.sagas[g].kind
  {
    assert Shaped(s.sagas[g]);
    SagaEvolves(s, e, g);
  }

  lemma {:induction false} ToldOfStep(s: State, e: Event, g: nat, r: nat)
    requires SagasOk(s.sagas, s.calls, s.orders) && Enabled(s, e)
    ensures ToldOf(Next(s, e).sagas, g, r) <==>
            ToldOf(s.sagas, g, r) || (e == CommitConfirm(g) && s.sagas[g].kind == Confirm(r))
  {
    ToldStep(s, e, g);
    if g < |s.sagas| {
      KindsStay(s, e, g);
    }
  }

  /** One more call is told so, or none, as the status moves. */
  lemma {:induction false} OneMoreTold(o: OrderRow, o': OrderRow, r: nat, sagas: seq<Saga>, sagas': seq<Saga>,
                                      more: set<nat>)
    requires RowConfirms(o, r, sagas) && o'.id == o.id
    requires o.id < |sagas'| && sagas'[o.id].kind == sagas[o.id].kind
    requires forall g: nat :: ToldOf(sagas', g, r) <==> ToldOf(sagas, g, r) || g in more
    requires if more == {} then o'.status == o.status || o'.status == Cancelled
             else o.status == Pending && o'.status == Confirmed && exists g :: more == {g}
    ensures RowConfirms(o', r, sagas')
  {
    if more != {} {
      var g :| more == {g};
      assert ToldOf(sagas', g, r);
    } else if o'.status == Confirmed && sagas[o.id].kind.Create? {
      var g: nat :| ToldOf(sagas, g, r);
      assert ToldOf(sagas', g, r);
    }
  }

  lemma {:induction false} OldRowConfirms(s: State, e: Event, r: nat)
    requires Inv(s) && Enabled(s, e) && r < |s.orders| && RowConfirms(s.orders[r], r, s.sagas)
    ensures r < |Next(s, e).orders| && RowConfirms(Next(s, e).orders[r], r, Next(s, e).sagas)
  {
    var sagas' := Next(s, e).sagas;
    var more := if e.CommitConfirm? && s.sagas[e.g].kind == Confirm(r) then {e.g} else {};
    ConfirmedByCommit(s, e, r);
    KindsStay(s, e, s.orders[r].id);
    forall g: nat ensures ToldOf(sagas', g, r) <==> ToldOf(s.sagas, g, r) || g in more {
      ToldOfStep(s, e, g, r);
    }
    OneMoreTold(s.orders[r], Next(s, e).orders[r], r, s.sagas, sagas', more);
  }

  /** A new row has never been confirmed by a call: a direct order starts pending, a queued one confirmed. */
  lemma {:induction false} NewRowConfirms(s: State, e: Event, r: nat)
    requires Inv(s) && Pipeline(s) && Confirms(s) && Enabled(s, e) && |s.orders| <= r < |Next(s, e).orders|
    ensures RowConfirms(Next(s, e).orders[r], r, Next(s, e).sagas)
  {
    RowsStart(s, e, r);
    forall g: nat ensures !ToldOf(Next(s, e).sagas, g, r) {
      ToldOfStep(s, e, g, r);
    }
  }

  lemma {:induction false} RowsStart(s: State, e: Event, r: nat)
    requires InOrder(s) && AcceptedAre(s.accepted, s.sagas) && Enabled(s, e) && |s.orders| <= r < |Next(s, e).orders|
    ensures r == |s.orders|
    ensures var o, sagas' := Next(s, e).orders[r], Next(s, e).sagas;
            && o.id < |sagas'| && o.status in {Pending, Confirmed}
            && (o.status == Pending <==> sagas'[o.id].kind.Create?)
            && (o.status == Confirmed <==> sagas'[o.id].kind.Async?)
    ensures !e.CommitConfirm?
  {
    StepFrame(s, e);
    if e.Persist? {
      assert s.accepted[|s.finished|] == s.worker[0].id;
    }
  }

  lemma {:induction false} StepKeepsConfirms(s: State, e: Event)
    requires Inv(s) && Pipeline(s) && Confirms(s) && Enabled(s, e)
    ensures Confirms(Next(s, e))
  {
    var s' := Next(s, e);
    assert |s'.orders| >= |s.orders| by {
      if s.orders != [] {
        ConfirmedByCommit(s, e, |s.orders| - 1);
      }
    }
    forall r | 0 <= r < |s'.orders| ensures RowConfirms(s'.orders[r], r, s'.sagas) {
      if r < |s.orders| {
        OldRowConfirms(s, e, r);
      } else {
        NewRowConfirms(s, e, r);
      }
    }
    forall g: nat | Told(s'.sagas, g) ensures s'.sagas[g].kind.row < |s'.orders| {
      ToldStep(s, e, g);
      KindsStay(s, e, g);
    }
  }

  // ----- Creating -----

  ghost predicate HasRow(orders: seq<OrderRow>, g: nat) {
    exists r :: 0 <= r < |orders| && orders[r].id == g
  }

  /** A direct order that was answered "pending" has its row. */
  ghost predicate CreatesStored(s: State) {
    forall g :: 0 <= g < |s.sagas| && s.sagas[g].kind.Create? && s.sagas[g].phase == Finished(true) ==>
      HasRow(s.orders, g)
  }

  lemma {:induction false} RowsKept(s: State, e: Event, g: nat)
    requires Enabled(s, e)
    ensures HasRow(s.orders, g) ==> HasRow(Next(s, e).orders, g)
    ensures e == CommitOrder(g) ==> HasRow(Next(s, e).orders, g)
  {
    var s' := Next(s, e);
    StepFrame(s, e);
    if e.CommitOrder? {
      assert s'.orders[|s.orders|].id == e.g;
    }
    if r :| 0 <= r < |s.orders| && s.orders[r].id == g {
      assert s'.orders[r].id == g;
    }
  }

  lemma {:induction false} StepKeepsStored(s: State, e: Event)
    requires SagasOk(s.sagas, s.calls, s.orders) && CreatesStored(s) && Enabled(s, e)
    ensures CreatesStored(Next(s, e))
  {
    var s' := Next(s, e);
    forall g | 0 <= g < |s'.sagas| && s'.sagas[g].kind.Create? && s'.sagas[g].phase == Finished(true)
      ensures HasRow(s'.orders, g)
    {
      RowsKept(s, e, g);
      if g < |s.sagas| {
        assert Shaped(s.sagas[g]);
        SagaEvolves(s, e, g);
      } else {
        StepFrame(s, e);
      }
    }
  }

  lemma {:induction false} RunKeepsAnswers(s: State, evs: seq<Event>)
    requires Inv(s) && Pipeline(s) && Confirms(s) && CreatesStored(s) && Executable(s, evs)
    ensures var t := Run(s, evs); Inv(t) && Pipeline(t) && Confirms(t) && CreatesStored(t)
    decreases |evs|
  {
    if evs != [] {
      StepKeepsConfirms(s, evs[0]);
      StepKeepsStored(s, evs[0]);
      StepKeepsPipeline(s, evs[0]);
      StepKeepsInv(s, evs[0]);
      RunKeepsAnswers(Next(s, evs[0]), evs[1..]);
    }
  }

  lemma {:induction false} ReachableAnswers(supply: StockTable, evs: seq<Event>)
    requires ValidTable(supply) && Executable(Initial(supply), evs)
    ensures var t := Run(Initial(supply), evs); Inv(t) && Pipeline(t) && Confirms(t) && CreatesStored(t)
  {
    RunKeepsAnswers(Initial(supply), evs);
  }

  // ----- Main results -----

  /** What a call that is over was told, over every run: CreateOrder succeeds if and only if its order is stored,
      AsyncCreateOrder if and only if its order was queued, CancelOrder if and only if the row bears it as its
      canceller, ConfirmOrder if and only if it committed; and an order confirmed by a call stays confirmed until it
      is cancelled. */
  lemma {:induction false} AnswersAreTrue(supply: StockTable, evs: seq<Event>, g: nat)
    requires ValidTable(supply) && Executable(Initial(supply), evs)
    requires g < |Run(Initial(supply), evs).sagas| && Run(Initial(supply), evs).sagas[g].phase.Finished?
    ensures var s := Run(Initial(supply), evs);
            var ok := s.sagas[g].phase.ok;
            match s.sagas[g].kind
            case Create => ok <==> HasRow(s.orders, g)
            case Async => ok <==> g in s.accepted
            case Cancel(r) => ok <==> r < |s.orders| && s.orders[r].cancelledBy == Some(g)
            case Confirm(r) =>
              && (ok <==> CommitConfirm(g) in evs)
              && (ok ==> r < |s.orders| && s.orders[r].status in {Confirmed, Cancelled})
  {
    ReachableAnswers(supply, evs);
    AnswerIsTrue(Run(Initial(supply), evs), g);
    if Run(Initial(supply), evs).sagas[g].kind.Confirm? {
      ToldByCommitIff(Initial(supply), evs, g);
    }
  }

  lemma {:induction false} AnswerIsTrue(s: State, g: nat)
    requires Inv(s) && Pipeline(s) && Confirms(s) && CreatesStored(s) && g < |s.sagas| && s.sagas[g].phase.Finished?
    ensures var ok := s.sagas[g].phase.ok;
            match s.sagas[g].kind
            case Create => ok <==> HasRow(s.orders, g)
            case Async => ok <==> g in s.accepted
            case Cancel(r) => ok <==> r < |s.orders| && s.orders[r].cancelledBy == Some(g)
            case Confirm(r) => ok ==> r < |s.orders| && s.orders[r].status in {Confirmed, Cancelled}
  {
    assert Shaped(s.sagas[g]) && OwnsRow(g, s.sagas[g], s.orders);
    match s.sagas[g].kind
    case Create =>
      if r :| 0 <= r < |s.orders| && s.orders[r].id == g {
        assert RowFaithful(s.orders[r], s.sagas, s.finished);
      }
    case Async =>
      assert Processing(s.sagas, g) <==> g in s.accepted;
    case Cancel(r) =>
      if r < |s.orders| {
        assert RowOk(r, s.orders[r], s.sagas);
      }
    case Confirm(r) =>
      assert s.sagas[g].phase.ok ==> ToldOf(s.sagas, g, r);
  }

  /** However many calls race to confirm order `r`, over every run: at most one is told that it did, and none when the
      worker stored the order; a pending order has been confirmed by none; and an order is confirmed only because one
      call was told so or the worker stored it. */
  lemma {:induction false} ConfirmedAtMostOnce(supply: StockTable, evs: seq<Event>, r: nat)
    requires ValidTable(supply) && Executable(Initial(supply), evs)
    requires r < |Run(Initial(supply), evs).orders|
    ensures var s := Run(Initial(supply), evs);
            var o := s.orders[r];
            && o.id < |s.sagas|
            && (forall g: nat, h: nat :: ToldOf(s.sagas, g, r) && ToldOf(s.sagas, h, r) ==> g == h)
            && (forall g: nat :: ToldOf(s.sagas, g, r) ==>
                  s.sagas[o.id].kind.Create? && o.status in {Confirmed, Cancelled})
            && (o.status == Pending ==> s.sagas[o.id].kind.Create?)
            && (o.status == Confirmed ==>
                  (s.sagas[o.id].kind.Async? <==> !exists g: nat :: ToldOf(s.sagas, g, r)))
  {
    ReachableAnswers(supply, evs);
    var s := Run(Initial(supply), evs);
    assert RowConfirms(s.orders[r], r, s.sagas);
    assert RowFaithful(s.orders[r], s.sagas, s.finished);
  }
}
