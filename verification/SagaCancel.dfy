/** Cancelling, confirming and giving stock back, under any interleaving of calls on the same orders. */
module SagaCancel {
  import opened Common
  import opened Int32
  import opened Sums
  import opened ProductDb
  import opened Pricing
  import opened SagaSystem
  import opened SagaFrame
  import opened SagaInvariant

  // ----- Refunds made by one call -----

  /** Units of `p` that saga `g` asked to give back, applied or not. */
  ghost function RefundBy(g: nat, p: ProductId): Call -> int {
    (k: Call) => if k.saga == g && k.product == p && k.delta > 0 then k.delta else 0
  }

  /** Those that reached the stock; a call reaches it once, since `Done` is final. */
  ghost function AppliedBy(g: nat, p: ProductId): Call -> int {
    (k: Call) => if k.stage == Done(true) then RefundBy(g, p)(k) else 0
  }

  ghost function Refunded(s: State, g: nat, p: ProductId): int {
    Sum(s.calls, RefundBy(g, p))
  }

  ghost function Applied(s: State, g: nat, p: ProductId): int {
    Sum(s.calls, AppliedBy(g, p))
  }

  /** A saga has asked back exactly its items up to `lo`. */
  ghost predicate RefundsMatch(s: State, g: nat, p: ProductId) {
    if g < |s.sagas| then
      s.sagas[g].lo <= |s.sagas[g].items| && Refunded(s, g, p) == QuantityOf(s.sagas[g].items[..s.sagas[g].lo], p)
    else
      Refunded(s, g, p) == 0
  }

  /** Updating a call without touching what it asks for. */
  lemma {:induction false} SameRefunds(s: State, c: nat, k: Call, g: nat, p: ProductId)
    requires c < |s.calls| && k.saga == s.calls[c].saga
    requires k.product == s.calls[c].product && k.delta == s.calls[c].delta
    ensures Sum(s.calls[c := k], RefundBy(g, p)) == Refunded(s, g, p)
  {
    SumUpdate(s.calls, c, k, RefundBy(g, p));
  }

  /** A decrement sent asks nothing back. */
  lemma {:induction false} SendDecrementRefunds(s: State, h: nat, g: nat, p: ProductId)
    requires CanSend(s, h) && Shaped(s.sagas[h]) && s.sagas[h].phase.Reserving? && RefundsMatch(s, g, p)
    ensures RefundsMatch(SendNext(s, h), g, p)
  {
    var x := s.sagas[h];
    assert 1 <= x.items[x.hi].quantity <= MAX;
    SumAppend(s.calls, SendNext(s, h).calls[|s.calls|], RefundBy(g, p));
  }

  /** A refund sent asks back the item that its saga moves past. */
  lemma {:induction false} SendRefundRefunds(s: State, h: nat, g: nat, p: ProductId)
    requires CanSend(s, h) && Shaped(s.sagas[h]) && s.sagas[h].phase.Restoring? && RefundsMatch(s, g, p)
    ensures RefundsMatch(SendNext(s, h), g, p)
  {
    var s', x := SendNext(s, h), s.sagas[h];
    var k := s'.calls[|s.calls|];
    assert 1 <= x.items[x.lo].quantity;
    SumAppend(s.calls, k, RefundBy(g, p));
    assert Refunded(s', g, p) == Refunded(s, g, p) + RefundBy(g, p)(k);
    if g == h {
      QuantityLast(x.items, 0, x.lo, p);
      assert x.items[0..x.lo] == x.items[..x.lo] && x.items[0..x.lo + 1] == x.items[..x.lo + 1];
      assert s'.sagas[g].lo == x.lo + 1 && s'.sagas[g].items == x.items;
    }
  }

  /** Steps of a call change neither who made it nor what it asks. */
  lemma {:induction false} CallStepKeepsRefunds(s: State, e: Event, g: nat, p: ProductId)
    requires Enabled(s, e) && RefundsMatch(s, g, p)
    requires e.Route? || e.Admit? || e.RunRedis? || e.RunWorker? || e.FailCall?
    ensures RefundsMatch(Next(s, e), g, p)
  {
    var c := if e.RunWorker? then s.channel[0] else e.c;
    SameRefunds(s, c, Next(s, e).calls[c], g, p);
  }

  lemma {:induction false} StepKeepsRefunds(s: State, e: Event, g: nat, p: ProductId)
    requires Inv(s) && Enabled(s, e) && RefundsMatch(s, g, p)
    ensures RefundsMatch(Next(s, e), g, p)
  {
    if e.Send? {
      assert Shaped(s.sagas[e.g]);
      if s.sagas[e.g].phase.Reserving? {
        SendDecrementRefunds(s, e.g, g, p);
      } else {
        SendRefundRefunds(s, e.g, g, p);
      }
    } else if e.Route? || e.Admit? || e.RunRedis? || e.RunWorker? || e.FailCall? {
      CallStepKeepsRefunds(s, e, g, p);
    } else {
      if g < |s.sagas| {
        assert Shaped(s.sagas[g]);
      }
      SagaStepKeepsRefunds(s, e, g, p);
    }
  }

  lemma {:induction false} SagaStepKeepsRefunds(s: State, e: Event, g: nat, p: ProductId)
    requires Enabled(s, e) && RefundsMatch(s, g, p) && (g < |s.sagas| ==> Shaped(s.sagas[g]))
    requires !e.Send? && !e.Route? && !e.Admit? && !e.RunRedis? && !e.RunWorker? && !e.FailCall?
    ensures RefundsMatch(Next(s, e), g, p)
  {
    var s' := Next(s, e);
    if e.Return? {
      var c := s.sagas[e.g].call.value;
      SameRefunds(s, c, s'.calls[c], g, p);
    }
    assert Refunded(s', g, p) == Refunded(s, g, p);
    if g < |s.sagas| {
      SagaEvolves(s, e, g);
      if e == CommitCancel(g) {
        assert s'.sagas[g].items[..0] == s.sagas[g].items[..0];
      }
    } else if g < |s'.sagas| {
      assert s'.sagas[g].items[..0] == [];
    }
  }

  // ----- Life of an order row -----

  /** The steps a status may take; the rest of a row, and a cancellation, stay for ever. */
  ghost predicate RowMoves(o: OrderRow, o': OrderRow) {
    && o'.id == o.id && o'.items == o.items && o'.total == o.total
    && (o'.status != o.status ==>
        || (o.status == Pending && o'.status == Confirmed)
        || (o.status in {Pending, Confirmed} && o'.status == Cancelled))
    && (o.status == Cancelled ==> o'.status == Cancelled && o'.cancelledBy == o.cancelledBy)
  }

  /** Confirming needs a pending order, cancelling a pending or confirmed one; nothing else moves a status. Because
      the status was read under the lock, it is still the row's status when the transaction commits. */
  lemma {:induction false} StatusMoves(s: State, e: Event, r: nat)
    requires Inv(s) && Enabled(s, e) && r < |s.orders|
    ensures r < |Next(s, e).orders| && RowMoves(s.orders[r], Next(s, e).orders[r])
  {
    if e.CommitCancel? || e.CommitConfirm? {
      assert OwnsRow(e.g, s.sagas[e.g], s.orders);
    }
    RowStep(s, e, r);
  }

  lemma {:induction false} RowStep(s: State, e: Event, r: nat)
    requires Enabled(s, e) && r < |s.orders|
    requires e.CommitCancel? || e.CommitConfirm? ==> OwnsRow(e.g, s.sagas[e.g], s.orders)
    ensures r < |Next(s, e).orders| && RowMoves(s.orders[r], Next(s, e).orders[r])
  {
    StepFrame(s, e);
  }

  ghost predicate CancelledRow(s: State, r: nat, canceller: Option<nat>) {
    r < |s.orders| && s.orders[r].status == Cancelled && s.orders[r].cancelledBy == canceller
  }

  /** Cancelled is for ever, and so is who cancelled it. */
  lemma {:induction false} CancelledIsAbsorbing(s: State, evs: seq<Event>, r: nat, canceller: Option<nat>)
    requires Inv(s) && Executable(s, evs) && CancelledRow(s, r, canceller)
    ensures CancelledRow(Run(s, evs), r, canceller)
    decreases |evs|
  {
    if evs != [] {
      CancelledStep(s, evs[0], r, canceller);
      CancelledIsAbsorbing(Next(s, evs[0]), evs[1..], r, canceller);
    }
  }

  lemma {:induction false} CancelledStep(s: State, e: Event, r: nat, canceller: Option<nat>)
    requires Inv(s) && Enabled(s, e) && CancelledRow(s, r, canceller)
    ensures Inv(Next(s, e)) && CancelledRow(Next(s, e), r, canceller)
  {
    StatusMoves(s, e, r);
    StepKeepsInv(s, e);
  }

  lemma {:induction false} RunKeepsRefunds(s: State, evs: seq<Event>, g: nat, p: ProductId)
    requires Inv(s) && Executable(s, evs) && RefundsMatch(s, g, p)
    ensures Inv(Run(s, evs)) && RefundsMatch(Run(s, evs), g, p)
    decreases |evs|
  {
    if evs != [] {
      StepKeepsRefunds(s, evs[0], g, p);
      StepKeepsInv(s, evs[0]);
      RunKeepsRefunds(Next(s, evs[0]), evs[1..], g, p);
    }
  }

  // ----- Main result -----

  lemma {:induction false} AppliedAtMostRefunded(s: State, g: nat, p: ProductId)
    ensures Applied(s, g, p) <= Refunded(s, g, p)
    ensures (forall c :: 0 <= c < |s.calls| && s.calls[c].saga == g && s.calls[c].delta > 0
               ==> s.calls[c].stage == Done(true)) ==> Applied(s, g, p) == Refunded(s, g, p)
  {
    SumMonotone(s.calls, AppliedBy(g, p), RefundBy(g, p));
    if forall c :: 0 <= c < |s.calls| && s.calls[c].saga == g && s.calls[c].delta > 0
         ==> s.calls[c].stage == Done(true) {
      SumMonotone(s.calls, RefundBy(g, p), AppliedBy(g, p));
    }
  }

  /** Call `c` gives stock back on behalf of a cancel of order `r`. */
  ghost predicate Restocks(s: State, c: nat, r: nat)
    requires c < |s.calls|
  {
    s.calls[c].delta > 0 && s.calls[c].saga < |s.sagas| && s.sagas[s.calls[c].saga].kind == Cancel(r)
  }

  /** Only the call that cancelled an order ever gives its stock back. */
  lemma {:induction false} OnlyTheCancellerRestocks(s: State, c: nat, r: nat)
    requires Inv(s) && c < |s.calls| && Restocks(s, c, r)
    ensures r < |s.orders| && s.orders[r].cancelledBy == Some(s.calls[c].saga)
  {
    var g := s.calls[c].saga;
    assert CallOk(c, s.calls[c], s.sagas, s.redis);
    assert Shaped(s.sagas[g]) && OwnsRow(g, s.sagas[g], s.orders);
  }

  /** Restock at most once, exactly once if no increment is lost: however many cancel and confirm calls race on
      order `r`, `cancelled_at` is set exactly on a cancelled order; all increments made for it come from one call;
      they ask back, product by product, at most what the order bought; and once that call is over they ask back
      exactly that, all of which has been added to the stock when none of them failed: to its row or its counter. An
      increment added to the row of a product in a deal counts here; the ledger counts it as lost to the stock on
      sale. */
  lemma {:induction false} RestockedAtMostOnce(supply: StockTable, evs: seq<Event>, r: nat, p: ProductId)
    requires ValidTable(supply) && Executable(Initial(supply), evs)
    requires r < |Run(Initial(supply), evs).orders|
    ensures var s := Run(Initial(supply), evs);
            var o := s.orders[r];
            && (o.status == Cancelled <==> o.cancelledBy.Some?)
            && (forall c :: 0 <= c < |s.calls| && Restocks(s, c, r) ==> o.cancelledBy == Some(s.calls[c].saga))
            && (o.cancelledBy.Some? ==>
                var g := o.cancelledBy.value;
                && g < |s.sagas|
                && Applied(s, g, p) <= Refunded(s, g, p) <= QuantityOf(o.items, p)
                && (s.sagas[g].phase.Finished? ==> Refunded(s, g, p) == QuantityOf(o.items, p))
                && (s.sagas[g].phase.Finished?
                    && (forall c :: 0 <= c < |s.calls| && s.calls[c].saga == g && s.calls[c].delta > 0
                          ==> s.calls[c].stage == Done(true))
                    ==> Applied(s, g, p) == QuantityOf(o.items, p)))
  {
    var s := Run(Initial(supply), evs);
    RunKeepsInv(Initial(supply), evs);
    var o := s.orders[r];
    assert RowOk(r, o, s.sagas);
    forall c | 0 <= c < |s.calls| && Restocks(s, c, r)
      ensures o.cancelledBy == Some(s.calls[c].saga)
    {
      OnlyTheCancellerRestocks(s, c, r);
    }
    if o.cancelledBy.Some? {
      CancellerRefunds(supply, evs, o.cancelledBy.value, r, p);
      AppliedAtMostRefunded(s, o.cancelledBy.value, p);
    }
  }

  lemma {:induction false} CancellerRefunds(supply: StockTable, evs: seq<Event>, g: nat, r: nat, p: ProductId)
    requires ValidTable(supply) && Executable(Initial(supply), evs)
    requires var s := Run(Initial(supply), evs);
             Inv(s) && r < |s.orders| && s.orders[r].cancelledBy == Some(g)
    ensures var s := Run(Initial(supply), evs);
            && g < |s.sagas|
            && Refunded(s, g, p) <= QuantityOf(s.orders[r].items, p)
            && (s.sagas[g].phase.Finished? ==> Refunded(s, g, p) == QuantityOf(s.orders[r].items, p))
  {
    var s := Run(Initial(supply), evs);
    RunKeepsRefunds(Initial(supply), evs, g, p);
    assert RowOk(r, s.orders[r], s.sagas);
    var x := s.sagas[g];
    assert Shaped(x);
    QuantitySplit(x.items, x.lo, p);
    QuantityNonNegative(x.items[x.lo..], p);
    if x.phase.Finished? {
      CancelFinishesWhole(supply, evs, g);
      assert x.items[..x.lo] == x.items;
    }
  }

  /** A committed cancel stops giving back only when it has asked for everything. */
  ghost predicate WholeCancel(sagas: seq<Saga>, g: nat) {
    g < |sagas| && Committed(sagas[g]) ==> sagas[g].hi == |sagas[g].items|
  }

  lemma {:induction false} WholeStep(s: State, e: Event, g: nat)
    requires Enabled(s, e) && WholeCancel(s.sagas, g) && (g < |s.sagas| ==> Shaped(s.sagas[g]))
    ensures WholeCancel(Next(s, e).sagas, g)
  {
    if g < |s.sagas| {
      SagaEvolves(s, e, g);
    }
  }

  lemma {:induction false} CancelsStayWhole(s: State, evs: seq<Event>, g: nat)
    requires Inv(s) && Executable(s, evs) && WholeCancel(s.sagas, g)
    ensures WholeCancel(Run(s, evs).sagas, g)
    decreases |evs|
  {
    if evs != [] {
      WholeStep(s, evs[0], g);
      StepKeepsInv(s, evs[0]);
      CancelsStayWhole(Next(s, evs[0]), evs[1..], g);
    }
  }

  lemma {:induction false} CancelFinishesWhole(supply: StockTable, evs: seq<Event>, g: nat)
    requires ValidTable(supply) && Executable(Initial(supply), evs)
    requires var s := Run(Initial(supply), evs); g < |s.sagas| && Committed(s.sagas[g]) && s.sagas[g].phase.Finished?
    ensures var x := Run(Initial(supply), evs).sagas[g]; x.lo == |x.items|
  {
    RunKeepsInv(Initial(supply), evs);
    CancelsStayWhole(Initial(supply), evs, g);
    assert Shaped(Run(Initial(supply), evs).sagas[g]);
  }
}
