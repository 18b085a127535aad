/** Runs put together from steps: whole sales, whole cancels, and runs in which the stock is not what it should be. */
module SagaRuns {
  import opened Common
  import opened Int32
  import opened Sums
  import opened ProductDb
  import opened Pricing
  import opened SagaSystem
  import opened SagaLedger

  // ----- Runs put together -----

  ghost predicate Leads(s: State, e: Event, t: State) {
    Enabled(s, e) && Next(s, e) == t
  }

  lemma {:induction false} RunThrough(states: seq<State>, evs: seq<Event>)
    requires |states| == |evs| + 1
    requires forall i :: 0 <= i < |evs| ==> Leads(states[i], evs[i], states[i + 1])
    ensures Executable(states[0], evs) && Run(states[0], evs) == states[|evs|]
    decreases |evs|
  {
    if evs != [] {
      assert Leads(states[0], evs[0], states[1]);
      forall i | 0 <= i < |evs| - 1 ensures Leads(states[1..][i], evs[1..][i], states[1..][i + 1]) {
        assert Leads(states[i + 1], evs[i + 1], states[i + 2]);
      }
      RunThrough(states[1..], evs[1..]);
    }
  }

  lemma {:induction false} RunSplit(s: State, evs: seq<Event>, more: seq<Event>)
    requires Executable(s, evs) && Executable(Run(s, evs), more)
    ensures Executable(s, evs + more) && Run(s, evs + more) == Run(Run(s, evs), more)
    decreases |evs|
  {
    if evs == [] {
      assert evs + more == more;
    } else {
      assert (evs + more)[0] == evs[0] && (evs + more)[1..] == evs[1..] + more;
      RunSplit(Next(s, evs[0]), evs[1..], more);
    }
  }

  /** A run from `s`, and where it ends. */
  ghost predicate Takes(s: State, evs: seq<Event>, t: State) {
    Executable(s, evs) && Run(s, evs) == t
  }

  lemma {:induction false} TakesOne(s: State, e: Event)
    requires Enabled(s, e)
    ensures Takes(s, [e], Next(s, e))
  {
    assert [e][1..] == [];
  }

  lemma {:induction false} TakesMore(s: State, evs: seq<Event>, t: State, more: seq<Event>, u: State)
    requires Takes(s, evs, t) && Takes(t, more, u)
    ensures Takes(s, evs + more, u)
  {
    RunSplit(s, evs, more);
  }

  // ----- Whole sales -----

  function OneUnit(p: ProductId): seq<Item> {
    [Item(p, 1, 0)]
  }

  function Buyer(p: ProductId, hi: nat, phase: Phase, call: Option<nat>): Saga {
    Saga(Create, OneUnit(p), 0, hi, phase, call)
  }

  /** A buyer of one unit has made its call, which stands at `stage`. */
  function Buying(s: State, p: ProductId, stage: Stage): State {
    s.(sagas := s.sagas + [Buyer(p, 0, Reserving, Some(|s.calls|))],
       calls := s.calls + [Call(|s.sagas|, 0, p, -1, stage, true)])
  }

  function Bought1(s: State, p: ProductId, hi: nat): State {
    s.(sagas := s.sagas + [Buyer(p, hi, Reserving, None)],
       calls := s.calls + [Call(|s.sagas|, 0, p, -1, Done(true), false)])
  }

  /** The order of one unit is stored. */
  function Sale(s: State, p: ProductId): State {
    s.(sagas := s.sagas + [Buyer(p, 0, Finished(true), None)],
       calls := s.calls + [Call(|s.sagas|, 0, p, -1, Done(true), false)],
       orders := s.orders + [NewRow(|s.sagas|, OneUnit(p), Pending)])
  }

  function RowLess(s: State, p: ProductId): State
    requires p in s.db
  {
    var db := s.db[p := s.db[p] - 1];
    s.(db := db, had := Recorded(s.had, db))
  }

  function CounterLess(s: State, p: ProductId): State
    requires p in s.redis
  {
    s.(redis := s.redis[p := s.redis[p] - 1])
  }

  function RowSale(s: State, p: ProductId): seq<Event> {
    var g, c := |s.sagas|, |s.calls|;
    [Arrive(Create, OneUnit(p)), Send(g), Route(c, false), Admit(c), RunWorker(NoFault), Return(g, true),
     CommitOrder(g)]
  }

  function CounterSale(s: State, p: ProductId): seq<Event> {
    var g, c := |s.sagas|, |s.calls|;
    [Arrive(Create, OneUnit(p)), Send(g), Route(c, true), RunRedis(c), Return(g, true), CommitOrder(g)]
  }

  lemma {:induction false} BuyerArrives(s: State, p: ProductId)
    ensures Leads(s, Arrive(Create, OneUnit(p)), s.(sagas := s.sagas + [Buyer(p, 0, Reserving, None)]))
    ensures Leads(s.(sagas := s.sagas + [Buyer(p, 0, Reserving, None)]), Send(|s.sagas|), Buying(s, p, Sent))
  {
    var t := s.(sagas := s.sagas + [Buyer(p, 0, Reserving, None)]);
    assert t.sagas[|s.sagas| := Buyer(p, 0, Reserving, Some(|s.calls|))] == Buying(s, p, Sent).sagas;
  }

  lemma {:induction false} StageMoves(s: State, p: ProductId, st: Stage, st': Stage)
    ensures SetStage(Buying(s, p, st), |s.calls|, st') == Buying(s, p, st')
  {
    var c := Call(|s.sagas|, 0, p, -1, st, true);
    assert (s.calls + [c])[|s.calls| := c.(stage := st')] == s.calls + [c.(stage := st')];
  }

  lemma {:induction false} UnitAccepted(p: ProductId)
    ensures RowsAccepted(OneUnit(p))
  {
    assert OneUnit(p)[..0] == [];
    assert Total(OneUnit(p)) == 0;
  }

  /** The reply arrives and the order is stored. */
  lemma {:induction false} BuyerStores(s: State, p: ProductId)
    ensures Leads(Buying(s, p, Done(true)), Return(|s.sagas|, true), Bought1(s, p, 1))
    ensures Leads(Bought1(s, p, 1), CommitOrder(|s.sagas|), Sale(s, p))
  {
    var b, m := Buying(s, p, Done(true)), Bought1(s, p, 1);
    assert b.sagas[|s.sagas| := Buyer(p, 1, Reserving, None)] == m.sagas;
    assert b.calls[|s.calls| := Call(|s.sagas|, 0, p, -1, Done(true), false)] == m.calls;
    assert m.sagas[|s.sagas| := Buyer(p, 0, Finished(true), None)] == Sale(s, p).sagas;
    UnitAccepted(p);
  }

  /** The update of a buyer, from the unanswered `HasStock` to the worker. */
  lemma {:induction false} RowServes(s: State, p: ProductId)
    requires s.channel == [] && p in s.db && 1 <= s.db[p] <= MAX
    ensures var c, queued := |s.calls|, Buying(s, p, InChannel).(channel := [|s.calls|]);
            && Leads(Buying(s, p, Sent), Route(c, false), Buying(s, p, Queueing))
            && Leads(Buying(s, p, Queueing), Admit(c), queued)
            && Leads(queued, RunWorker(NoFault), Buying(RowLess(s, p), p, Done(true)))
  {
    StageMoves(s, p, Sent, Queueing);
    StageMoves(s, p, Queueing, InChannel);
    StageMoves(s, p, InChannel, Done(true));
  }

  /** From any state with an idle channel a buyer gets a unit of the row, if its `HasStock` answers false. */
  lemma {:induction false} SellFromRow(s: State, p: ProductId)
    requires s.channel == [] && p in s.db && 1 <= s.db[p] <= MAX
    ensures Executable(s, RowSale(s, p)) && Run(s, RowSale(s, p)) == Sale(RowLess(s, p), p)
  {
    BuyerArrives(s, p);
    RowServes(s, p);
    BuyerStores(RowLess(s, p), p);
    RunThrough([s, s.(sagas := s.sagas + [Buyer(p, 0, Reserving, None)]), Buying(s, p, Sent), Buying(s, p, Queueing),
                Buying(s, p, InChannel).(channel := [|s.calls|]), Buying(RowLess(s, p), p, Done(true)),
                Bought1(RowLess(s, p), p, 1), Sale(RowLess(s, p), p)], RowSale(s, p));
  }

  /** From any state a buyer gets a unit of the counter of an open deal. */
  lemma {:induction false} SellFromCounter(s: State, p: ProductId)
    requires p in s.redis && s.redis[p] >= 1
    ensures Executable(s, CounterSale(s, p)) && Run(s, CounterSale(s, p)) == Sale(CounterLess(s, p), p)
  {
    var c := |s.calls|;
    var done := Buying(CounterLess(s, p), p, Done(true));
    BuyerArrives(s, p);
    StageMoves(s, p, Sent, AtRedis);
    assert Leads(Buying(s, p, Sent), Route(c, true), Buying(s, p, AtRedis));
    StageMoves(s, p, AtRedis, Done(true));
    assert Leads(Buying(s, p, AtRedis), RunRedis(c), done);
    BuyerStores(CounterLess(s, p), p);
    RunThrough([s, s.(sagas := s.sagas + [Buyer(p, 0, Reserving, None)]), Buying(s, p, Sent), Buying(s, p, AtRedis),
                done, Bought1(CounterLess(s, p), p, 1), Sale(CounterLess(s, p), p)], CounterSale(s, p));
  }

  lemma {:induction false} SaleSellsOne(s: State, p: ProductId)
    ensures Sold(Sale(s, p), p) == Sold(s, p) + 1
  {
    var o := NewRow(|s.sagas|, OneUnit(p), Pending);
    SumAppend(s.orders, o, Bought(p));
    SumOne(Item(p, 1, 0), QuantityFor(p));
  }

  // ----- Runs that sell more than there was -----

  /** `evs` takes the initial state to `s`, where no remote update is under way. */
  ghost predicate Reaches(supply: StockTable, evs: seq<Event>, s: State) {
    && Executable(Initial(supply), evs) && Run(Initial(supply), evs) == s
    && s.channel == [] && forall c :: 0 <= c < |s.calls| ==> s.calls[c].stage.Done?
  }

  lemma {:induction false} ReachOpening(supply: StockTable, evs: seq<Event>, s: State, p: ProductId, read: int)
    requires Reaches(supply, evs, s) && p in s.db && p !in s.redis && p in s.had && read in s.had[p]
    ensures Reaches(supply, evs + [StartHotdeal(p, read)], s.(redis := s.redis[p := read]))
  {
    RunThrough([s, s.(redis := s.redis[p := read])], [StartHotdeal(p, read)]);
    RunSplit(Initial(supply), evs, [StartHotdeal(p, read)]);
  }

  /** A deal closed without a write-back. */
  function Unwritten(s: State, p: ProductId): State {
    s.(redis := s.redis - {p}, had := Recorded(s.had, s.db))
  }

  lemma {:induction false} ReachClosing(supply: StockTable, evs: seq<Event>, s: State, p: ProductId, written: bool)
    requires Reaches(supply, evs, s) && p in s.redis && (written ==> s.redis[p] == 0)
    ensures Reaches(supply, evs + [EndHotdeal(p, written)], Unwritten(s, p))
  {
    RunThrough([s, Unwritten(s, p)], [EndHotdeal(p, written)]);
    RunSplit(Initial(supply), evs, [EndHotdeal(p, written)]);
  }

  lemma {:induction false} ReachRowSale(supply: StockTable, evs: seq<Event>, s: State, p: ProductId)
    requires Reaches(supply, evs, s) && p in s.db && 1 <= s.db[p] <= MAX
    ensures Reaches(supply, evs + RowSale(s, p), Sale(RowLess(s, p), p))
    ensures Sold(Sale(RowLess(s, p), p), p) == Sold(s, p) + 1
  {
    SellFromRow(s, p);
    RunSplit(Initial(supply), evs, RowSale(s, p));
    SaleSellsOne(RowLess(s, p), p);
  }

  lemma {:induction false} ReachCounterSale(supply: StockTable, evs: seq<Event>, s: State, p: ProductId)
    requires Reaches(supply, evs, s) && p in s.redis && s.redis[p] >= 1
    ensures Reaches(supply, evs + CounterSale(s, p), Sale(CounterLess(s, p), p))
    ensures Sold(Sale(CounterLess(s, p), p), p) == Sold(s, p) + 1
  {
    SellFromCounter(s, p);
    RunSplit(Initial(supply), evs, CounterSale(s, p));
    SaleSellsOne(CounterLess(s, p), p);
  }

  /** Neither the worker nor a deal opening or closing. */
  ghost predicate MovesNoStock(evs: seq<Event>) {
    forall i :: 0 <= i < |evs| ==> !evs[i].RunWorker? && !evs[i].StartHotdeal? && !evs[i].EndHotdeal?
  }

  lemma {:induction false} SuchRunsMintNothing(s: State, evs: seq<Event>)
    requires Executable(s, evs) && MovesNoStock(evs)
    ensures MintsNothing(s, evs)
    decreases |evs|
  {
    if evs != [] {
      SuchRunsMintNothing(Next(s, evs[0]), evs[1..]);
    }
  }

  lemma {:induction false} MintFreeJoin(s: State, evs: seq<Event>, more: seq<Event>)
    requires Executable(s, evs) && Executable(Run(s, evs), more)
    requires MintsNothing(s, evs) && MintsNothing(Run(s, evs), more)
    ensures Executable(s, evs + more) && MintsNothing(s, evs + more)
    decreases |evs|
  {
    if evs == [] {
      assert evs + more == more;
    } else {
      assert (evs + more)[0] == evs[0] && (evs + more)[1..] == evs[1..] + more;
      MintFreeJoin(Next(s, evs[0]), evs[1..], more);
    }
  }

  lemma {:induction false} OpeningMintsNothing(supply: StockTable, p: ProductId, more: seq<Event>)
    requires ValidTable(supply) && p in supply && MovesNoStock(more)
    requires Executable(Initial(supply).(redis := map[p := supply[p]]), more)
    ensures var open := StartHotdeal(p, supply[p]);
            Executable(Initial(supply), [open] + more) && MintsNothing(Initial(supply), [open] + more)
  {
    var s0, open := Initial(supply), StartHotdeal(p, supply[p]);
    var s1 := s0.(redis := map[p := supply[p]]);
    assert Enabled(s0, open) && Next(s0, open) == s1;
    assert ([open] + more)[1..] == more;
    SuchRunsMintNothing(s1, more);
  }

  lemma {:induction false} DealOpens(supply: StockTable, p: ProductId)
    requires ValidTable(supply) && p in supply
    ensures var s := Initial(supply).(redis := map[p := supply[p]]);
            Reaches(supply, [StartHotdeal(p, supply[p])], s) && Sold(s, p) == 0
  {
    var s0, open := Initial(supply), StartHotdeal(p, supply[p]);
    assert Reaches(supply, [], s0);
    ReachOpening(supply, [], s0, p, supply[p]);
    assert [] + [open] == [open];
  }

  /** A deal on the whole supply of `p`, and its first sale. */
  lemma {:induction false} DealSellsOne(supply: StockTable, p: ProductId) returns (evs: seq<Event>, s: State)
    requires ValidTable(supply) && p in supply && supply[p] >= 1
    ensures Reaches(supply, evs, s) && Sold(s, p) == 1 && MintsNothing(Initial(supply), evs)
    ensures p in s.redis && s.redis[p] == supply[p] - 1 && s.db == supply
    ensures s.orders == [NewRow(0, OneUnit(p), Pending)]
  {
    var open := StartHotdeal(p, supply[p]);
    var s1 := Initial(supply).(redis := map[p := supply[p]]);
    DealOpens(supply, p);
    ReachCounterSale(supply, [open], s1, p);
    evs, s := [open] + CounterSale(s1, p), Sale(CounterLess(s1, p), p);
    SellFromCounter(s1, p);
    OpeningMintsNothing(supply, p, CounterSale(s1, p));
  }

  /** The sold-out deal: with one unit of a product and nothing failing, a deal sells it, closes at zero, and the row
      sells it again. */
  lemma {:induction false} SoldOutDealOversells(supply: StockTable, p: ProductId) returns (evs: seq<Event>, s: State)
    requires ValidTable(supply) && p in supply && supply[p] == 1
    ensures Reaches(supply, evs, s) && Sold(s, p) == 2 > Supply(supply, p)
  {
    var s1;
    evs, s1 := DealSellsOne(supply, p);
    ReachClosing(supply, evs, s1, p, true);
    evs, s1 := evs + [EndHotdeal(p, true)], Unwritten(s1, p);
    ReachRowSale(supply, evs, s1, p);
    evs, s := evs + RowSale(s1, p), Sale(RowLess(s1, p), p);
  }

  /** The failed write-back: a deal on two units sells one and closes with its counter deleted and nothing written; the
      row sells both again. */
  lemma {:induction false} FailedWriteBackOversells(supply: StockTable, p: ProductId)
    returns (evs: seq<Event>, s: State)
    requires ValidTable(supply) && p in supply && supply[p] == 2
    ensures Reaches(supply, evs, s) && Sold(s, p) == 3 > Supply(supply, p)
  {
    var s1;
    evs, s1 := DealSellsOne(supply, p);
    ReachClosing(supply, evs, s1, p, false);
    evs, s1 := evs + [EndHotdeal(p, false)], Unwritten(s1, p);
    ReachRowSale(supply, evs, s1, p);
    var s2 := Sale(RowLess(s1, p), p);
    evs := evs + RowSale(s1, p);
    ReachRowSale(supply, evs, s2, p);
    evs, s := evs + RowSale(s2, p), Sale(RowLess(s2, p), p);
  }

  /** The unanswered `HasStock`: a deal on one unit sells it; a second buyer, whose EXISTS fails, is served by the row.
      No deal is closed. */
  lemma {:induction false} UnansweredHasStockOversells(supply: StockTable, p: ProductId)
    returns (evs: seq<Event>, s: State)
    requires ValidTable(supply) && p in supply && supply[p] == 1
    ensures Reaches(supply, evs, s) && Sold(s, p) == 2 > Supply(supply, p) && p in s.redis
  {
    var s1;
    evs, s1 := DealSellsOne(supply, p);
    ReachRowSale(supply, evs, s1, p);
    evs, s := evs + RowSale(s1, p), Sale(RowLess(s1, p), p);
  }

  /** The deal opened from an outdated cache entry: the one unit is sold, then a deal opens with the stock the row
      showed before. Nothing fails, and no deal is closed. */
  lemma {:induction false} OutdatedReadOversells(supply: StockTable, p: ProductId) returns (evs: seq<Event>, s: State)
    requires ValidTable(supply) && p in supply && supply[p] == 1
    ensures Reaches(supply, evs, s) && Sold(s, p) == 2 > Supply(supply, p) && p in s.redis
  {
    var s0 := Initial(supply);
    assert Reaches(supply, [], s0);
    ReachRowSale(supply, [], s0, p);
    evs := [] + RowSale(s0, p);
    var s1 := Sale(RowLess(s0, p), p);
    assert 1 in s1.had[p];
    ReachOpening(supply, evs, s1, p, 1);
    var s2 := s1.(redis := s1.redis[p := 1]);
    evs := evs + [StartHotdeal(p, 1)];
    ReachCounterSale(supply, evs, s2, p);
    evs, s := evs + CounterSale(s2, p), Sale(CounterLess(s2, p), p);
  }

  // ----- The refused refund -----

  /** A confirm or cancel arrives and locks its row. */
  lemma {:induction false} OpenRuns(s: State, kind: Kind, r: nat) returns (evs: seq<Event>, t: State)
    requires !Creates(kind) && kind.row == r < |s.orders| && s.orders[r].lock.None?
    ensures evs == [Arrive(kind, []), OpenRow(|s.sagas|)] && Takes(s, evs, t)
    ensures t == s.(sagas := s.sagas + [Saga(kind, [], 0, 0, Holding(s.orders[r].status), None)],
                    orders := s.orders[r := s.orders[r].(lock := Some(|s.sagas|))])
  {
    var g := |s.sagas|;
    var s1 := Next(s, Arrive(kind, []));
    t := s.(sagas := s.sagas + [Saga(kind, [], 0, 0, Holding(s.orders[r].status), None)],
            orders := s.orders[r := s.orders[r].(lock := Some(g))]);
    assert s1.sagas[g := t.sagas[g]] == t.sagas;
    TakesOne(s, Arrive(kind, []));
    TakesOne(s1, OpenRow(g));
    TakesMore(s, [Arrive(kind, [])], s1, [OpenRow(g)], t);
    evs := [Arrive(kind, [])] + [OpenRow(g)];
  }

  /** The order of one unit at row `r` is cancelled, and its refund sent. */
  lemma {:induction false} CancelSends(s: State, r: nat, p: ProductId) returns (evs: seq<Event>, t: State)
    requires s.channel == [] && r < |s.orders| && s.orders[r] == NewRow(s.orders[r].id, OneUnit(p), Pending)
    ensures Takes(s, evs, t) && MovesNoStock(evs)
    ensures t.db == s.db && t.redis == s.redis && t.channel == []
    ensures t.calls == s.calls + [Call(|s.sagas|, 0, p, 1, Sent, true)]
  {
    var g := |s.sagas|;
    var first, s1 := OpenRuns(s, Cancel(r), r);
    var s2 := Next(s1, CommitCancel(g));
    t := Next(s2, Send(g));
    RunThrough([s1, s2, t], [CommitCancel(g), Send(g)]);
    TakesMore(s, first, s1, [CommitCancel(g), Send(g)], t);
    evs := first + [CommitCancel(g), Send(g)];
  }

  /** The refund, whose `HasStock` goes unanswered, enters the channel. */
  lemma {:induction false} CancelReachesTheChannel(s: State, r: nat, p: ProductId) returns (evs: seq<Event>, t: State)
    requires s.channel == [] && r < |s.orders| && s.orders[r] == NewRow(s.orders[r].id, OneUnit(p), Pending)
    ensures Takes(s, evs, t) && MovesNoStock(evs)
    ensures t.db == s.db && t.redis == s.redis && t.channel == [|s.calls|]
    ensures t.calls == s.calls + [Call(|s.sagas|, 0, p, 1, InChannel, true)]
  {
    var c := |s.calls|;
    var first, s1 := CancelSends(s, r, p);
    var s2 := Next(s1, Route(c, false));
    t := Next(s2, Admit(c));
    RunThrough([s1, s2, t], [Route(c, false), Admit(c)]);
    TakesMore(s, first, s1, [Route(c, false), Admit(c)], t);
    evs := first + [Route(c, false), Admit(c)];
  }

  /** A refund of a sale inside a deal, sent to the row by an unanswered `HasStock`: the row still shows the whole
      supply, so the refund takes it beyond; and where the supply is the largest `int32`, it is refused. Nothing was
      minted, its caller waits, and the database works. Either way its unit is lost to the stock on sale. */
  lemma {:induction false} RefusedRefund(supply: StockTable, p: ProductId)
    returns (evs: seq<Event>, t: State, c: nat)
    requires ValidTable(supply) && p in supply && supply[p] >= 1
    ensures Takes(Initial(supply), evs, t) && MintsNothing(Initial(supply), evs)
    ensures c < |t.calls| && t.channel == [c] && t.calls[c].awaited
    ensures t.calls[c].product == p && t.calls[c].delta == 1
    ensures LockedUpdate(t.db, p, 1, NoFault).1 == if supply[p] < MAX then Updated(supply[p] + 1) else Insufficient
    ensures Enabled(t, RunWorker(NoFault)) && Loss(t, RunWorker(NoFault), p) == 1
  {
    var deal, s := DealSellsOne(supply, p);
    var cancel;
    cancel, t := CancelReachesTheChannel(s, 0, p);
    c := |s.calls|;
    TakesMore(Initial(supply), deal, s, cancel, t);
    SuchRunsMintNothing(s, cancel);
    MintFreeJoin(Initial(supply), deal, cancel);
    evs := deal + cancel;
    LockedUpdateIsExact(t.db, p, 1, NoFault);
  }
}
