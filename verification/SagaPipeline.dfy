/** The asynchronous order pipeline: accepted orders move through the Redis list and the single worker in order,
    none twice, none unaccounted for. */
module SagaPipeline {
  import opened ProductDb
  import opened Pricing
  import opened SagaSystem
  import opened SagaFrame
  import opened SagaInvariant

  function Ids(rs: seq<OrderRequest>): seq<nat> {
    if rs == [] then [] else [rs[0].id] + Ids(rs[1..])
  }

  /** Ids of a list pushed on the left, in the order they were pushed. */
  function Arrivals(list: seq<OrderRequest>): seq<nat> {
    if list == [] then [] else Arrivals(list[1..]) + [list[0].id]
  }

  /** Popping on the right takes the earliest arrival. */
  lemma {:induction false} PopTakesTheOldest(list: seq<OrderRequest>)
    requires list != []
    ensures Arrivals(list) == [list[|list| - 1].id] + Arrivals(list[..|list| - 1])
  {
    if |list| > 1 {
      var n := |list| - 1;
      assert list[1..][..n - 1] == list[..n][1..];
      PopTakesTheOldest(list[1..]);
    }
  }

  ghost predicate Distinct(ids: seq<nat>) {
    forall j, k :: 0 <= j < k < |ids| ==> ids[j] != ids[k]
  }

  /** An asynchronous call that answered "processing". */
  ghost predicate Processing(sagas: seq<Saga>, g: nat) {
    g < |sagas| && sagas[g].kind.Async? && sagas[g].phase == Finished(true)
  }

  ghost predicate RequestsFaithful(rs: seq<OrderRequest>, sagas: seq<Saga>) {
    forall k :: 0 <= k < |rs| ==> rs[k].id < |sagas| && rs[k].items == sagas[rs[k].id].items
  }

  ghost predicate RowFaithful(o: OrderRow, sagas: seq<Saga>, finished: seq<nat>) {
    && o.id < |sagas| && o.items == sagas[o.id].items
    && Creates(sagas[o.id].kind) && sagas[o.id].phase == Finished(true)
    && (sagas[o.id].kind.Async? ==> o.id in finished)
  }

  ghost predicate RowsFaithful(orders: seq<OrderRow>, sagas: seq<Saga>, finished: seq<nat>) {
    && (forall r :: 0 <= r < |orders| ==> RowFaithful(orders[r], sagas, finished))
    && (forall q, r :: 0 <= q < r < |orders| ==> orders[q].id != orders[r].id)
  }

  /** The accepted ids, each once, are those of the calls that answered "processing". */
  ghost predicate AcceptedAre(accepted: seq<nat>, sagas: seq<Saga>) {
    && Distinct(accepted)
    && (forall k :: 0 <= k < |accepted| ==> Processing(sagas, accepted[k]))
    && (forall g :: 0 <= g < |sagas| && Processing(sagas, g) ==> g in accepted)
  }

  /** Disposed of, then in the worker, then queued: that is the order of acceptance. */
  ghost predicate InOrder(s: State) {
    |s.worker| <= 1 && s.accepted == s.finished + Ids(s.worker) + Arrivals(s.list)
  }

  ghost predicate Pipeline(s: State) {
    && InOrder(s)
    && AcceptedAre(s.accepted, s.sagas)
    && RequestsFaithful(s.list, s.sagas) && RequestsFaithful(s.worker, s.sagas)
    && RowsFaithful(s.orders, s.sagas, s.finished)
  }

  // ----- Steps of the queue -----

  lemma {:induction false} PushKeeps(s: State, g: nat)
    requires Pipeline(s) && Enabled(s, PushOrder(g))
    ensures Pipeline(Next(s, PushOrder(g)))
  {
    var s' := Next(s, PushOrder(g));
    assert s'.list[1..] == s.list;
    PushAccepts(s, g);
    forall r | 0 <= r < |s'.orders| ensures RowFaithful(s'.orders[r], s'.sagas, s'.finished) {
      assert RowFaithful(s.orders[r], s.sagas, s.finished);
    }
  }

  lemma {:induction false} PushAccepts(s: State, g: nat)
    requires AcceptedAre(s.accepted, s.sagas) && Enabled(s, PushOrder(g))
    ensures AcceptedAre(Next(s, PushOrder(g)).accepted, Next(s, PushOrder(g)).sagas)
  {
  }

  lemma {:induction false} PopKeeps(s: State)
    requires Pipeline(s) && Enabled(s, Pop)
    ensures Pipeline(Next(s, Pop))
  {
    PopTakesTheOldest(s.list);
  }

  lemma {:induction false} DisposeKeeps(s: State, e: Event)
    requires Pipeline(s) && Enabled(s, e) && e in {Persist, DropOrder}
    ensures Pipeline(Next(s, e))
  {
    var s' := Next(s, e);
    var w := s.worker[0].id;
    assert s.worker[1..] == [];
    assert s.accepted[|s.finished|] == w;
    assert Processing(s.sagas, w);
    assert w !in s.finished by {
      forall k | 0 <= k < |s.finished| ensures s.finished[k] != w {
        assert s.accepted[k] == s.finished[k];
      }
    }
    forall r | 0 <= r < |s.orders| ensures RowFaithful(s.orders[r], s'.sagas, s'.finished) && s.orders[r].id != w {
      assert RowFaithful(s.orders[r], s.sagas, s.finished);
    }
    assert w in s'.finished by {
      assert s'.finished[|s.finished|] == w;
    }
  }

  // ----- All other steps -----

  /** A call that is accepted or stored stays as it is, and none becomes so but by `PushOrder`. */
  ghost predicate CallStays(x: Saga, x': Saga) {
    && x'.kind == x.kind
    && (x.phase == Finished(true) ==> x'.phase == Finished(true))
    && (x.kind.Async? && x'.phase == Finished(true) ==> x.phase == Finished(true))
    && (Creates(x.kind) ==> x'.items == x.items)
  }

  ghost predicate CallsStay(sagas: seq<Saga>, sagas': seq<Saga>) {
    && |sagas'| >= |sagas|
    && (forall g :: 0 <= g < |sagas| ==> CallStays(sagas[g], sagas'[g]))
    && (forall g :: |sagas| <= g < |sagas'| ==> !sagas'[g].phase.Finished?)
  }

  lemma {:induction false} OtherCallsStay(s: State, e: Event)
    requires SagasOk(s.sagas, s.calls, s.orders) && Enabled(s, e) && !e.PushOrder?
    ensures CallsStay(s.sagas, Next(s, e).sagas)
  {
    forall g | 0 <= g < |s.sagas| ensures CallStays(s.sagas[g], Next(s, e).sagas[g]) {
      assert Shaped(s.sagas[g]);
      SagaEvolves(s, e, g);
    }
  }

  lemma {:induction false} AcceptedStay(accepted: seq<nat>, sagas: seq<Saga>, sagas': seq<Saga>)
    requires AcceptedAre(accepted, sagas) && CallsStay(sagas, sagas')
    ensures AcceptedAre(accepted, sagas')
  {
  }

  lemma {:induction false} RequestsStay(s: State, sagas': seq<Saga>)
    requires Pipeline(s) && CallsStay(s.sagas, sagas')
    ensures RequestsFaithful(s.list, sagas') && RequestsFaithful(s.worker, sagas')
  {
    forall k | 0 <= k < |s.list| ensures s.list[k].items == sagas'[s.list[k].id].items {
      ArrivalsHas(s.list, k);
      var j :| 0 <= j < |Arrivals(s.list)| && Arrivals(s.list)[j] == s.list[k].id;
      assert s.accepted[|s.finished| + |Ids(s.worker)| + j] == s.list[k].id;
    }
    if s.worker != [] {
      assert s.worker[1..] == [];
      assert s.accepted[|s.finished|] == s.worker[0].id;
    }
  }

  lemma {:induction false} ArrivalsHas(list: seq<OrderRequest>, k: nat)
    requires k < |list|
    ensures list[k].id in Arrivals(list)
  {
    if k == 0 {
      assert Arrivals(list)[|Arrivals(list[1..])|] == list[0].id;
    } else {
      ArrivalsHas(list[1..], k - 1);
    }
  }

  ghost predicate SameOrders(orders: seq<OrderRow>, orders': seq<OrderRow>) {
    && |orders| <= |orders'|
    && (forall r :: 0 <= r < |orders| ==> orders'[r].id == orders[r].id && orders'[r].items == orders[r].items)
  }

  /** Rows keep id and items; the only new one is that of a direct call that was not over yet. */
  lemma {:induction false} RowsGrow(s: State, e: Event)
    requires Enabled(s, e) && !e.Persist?
    ensures var s' := Next(s, e);
            && SameOrders(s.orders, s'.orders)
            && (|s'.orders| > |s.orders| ==>
                && e.CommitOrder? && |s'.orders| == |s.orders| + 1 && s'.orders[|s.orders|].id == e.g
                && s'.orders[|s.orders|].items == s'.sagas[e.g].items
                && s.sagas[e.g].phase != Finished(true) && s'.sagas[e.g].phase == Finished(true)
                && s'.sagas[e.g].kind.Create?)
  {
    StepFrame(s, e);
  }

  lemma {:induction false} RowsStay(s: State, e: Event)
    requires RowsFaithful(s.orders, s.sagas, s.finished) && Enabled(s, e) && !e.Persist? && !e.DropOrder?
    requires CallsStay(s.sagas, Next(s, e).sagas)
    ensures RowsFaithful(Next(s, e).orders, Next(s, e).sagas, s.finished)
  {
    var s' := Next(s, e);
    RowsGrow(s, e);
    forall r | 0 <= r < |s'.orders| ensures RowFaithful(s'.orders[r], s'.sagas, s.finished) {
      if r < |s.orders| {
        assert RowFaithful(s.orders[r], s.sagas, s.finished);
      }
    }
    forall q, r | 0 <= q < r < |s'.orders| ensures s'.orders[q].id != s'.orders[r].id {
      assert RowFaithful(s.orders[q], s.sagas, s.finished);
    }
  }

  lemma {:induction false} OtherKeeps(s: State, e: Event)
    requires Pipeline(s) && SagasOk(s.sagas, s.calls, s.orders) && Enabled(s, e) && !OnQueue(e)
    ensures Pipeline(Next(s, e))
  {
    var s' := Next(s, e);
    StepFrame(s, e);
    OtherCallsStay(s, e);
    AcceptedStay(s.accepted, s.sagas, s'.sagas);
    RequestsStay(s, s'.sagas);
    RowsStay(s, e);
  }

  lemma {:induction false} StepKeepsPipeline(s: State, e: Event)
    requires Pipeline(s) && SagasOk(s.sagas, s.calls, s.orders) && Enabled(s, e)
    ensures Pipeline(Next(s, e))
  {
    if e.PushOrder? {
      PushKeeps(s, e.g);
    } else if e.Pop? {
      PopKeeps(s);
    } else if e.Persist? || e.DropOrder? {
      DisposeKeeps(s, e);
    } else {
      OtherKeeps(s, e);
    }
  }

  lemma {:induction false} RunKeepsPipeline(s: State, evs: seq<Event>)
    requires Pipeline(s) && Inv(s) && Executable(s, evs)
    ensures Pipeline(Run(s, evs)) && Inv(Run(s, evs))
    decreases |evs|
  {
    if evs != [] {
      StepKeepsPipeline(s, evs[0]);
      StepKeepsInv(s, evs[0]);
      RunKeepsPipeline(Next(s, evs[0]), evs[1..]);
    }
  }

  /** Pipeline accounting over every run: the calls that answered "processing" are exactly the accepted ids, each
      once; disposed of, in the worker and queued make up the enqueue order exactly, so what the worker finished is
      a prefix of it; no order is stored twice, and every stored row, queued or direct, has the items of its call and
      is one the tables take. */
  lemma {:induction false} PipelineAccounting(supply: StockTable, evs: seq<Event>)
    requires ValidTable(supply) && Executable(Initial(supply), evs)
    ensures var s := Run(Initial(supply), evs);
            && (forall g :: Processing(s.sagas, g) <==> g in s.accepted)
            && Distinct(s.accepted)
            && s.accepted == s.finished + Ids(s.worker) + Arrivals(s.list) && s.finished <= s.accepted
            && (forall r :: 0 <= r < |s.orders| ==>
                  && s.orders[r].id < |s.sagas|
                  && s.orders[r].items == s.sagas[s.orders[r].id].items
                  && s.orders[r].total == Total(s.orders[r].items) && RowsAccepted(s.orders[r].items)
                  && (s.sagas[s.orders[r].id].kind.Async? ==> s.orders[r].id in s.finished))
            && (forall q, r :: 0 <= q < r < |s.orders| ==> s.orders[q].id != s.orders[r].id)
  {
    RunKeepsPipeline(Initial(supply), evs);
    var s := Run(Initial(supply), evs);
    forall r | 0 <= r < |s.orders|
      ensures RowFaithful(s.orders[r], s.sagas, s.finished)
      ensures s.orders[r].total == Total(s.orders[r].items) && RowsAccepted(s.orders[r].items)
    {
      assert RowOk(r, s.orders[r], s.sagas);
    }
  }
}
