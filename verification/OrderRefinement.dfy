/** The asynchronous order path against the synchronous one, and cancelling against creating. */
module OrderRefinement {
  import opened Common
  import opened ProductDb
  import opened Pricing
  import opened OrderService
  import opened OrderFlows

  // ----- Async refines sync -----

  /** CreateOrder followed by ConfirmOrder of the order it created. */
  function SyncStep(st: Store, items: seq<Item>, net: Network): Store {
    ConfirmRow(Create(st, items, net, NoTxFault).0, |st.orders|, PLAIN).0
  }

  function AsyncStep(st: Store, items: seq<Item>, net: Network): Store {
    Async(st, items, net, true).0
  }

  lemma {:induction false} DrainKeepsStock(st: Store)
    ensures Drain(st).stock == st.stock && Drain(st).list == []
    decreases |st.list|
  {
    if st.list != [] {
      DrainKeepsStock(Process(st, NoTxFault));
    }
  }

  function Takes(n: nat): seq<Turn> {
    if n == 0 then [] else [Take(NoTxFault)] + Takes(n - 1)
  }

  /** Draining is what the worker's loop does while nothing is pushed and no insert fails for want of the database. */
  lemma {:induction false} DrainIsWork(st: Store)
    ensures Drain(st) == Work(st, Takes(|st.list|))
    decreases |st.list|
  {
    if st.list != [] {
      assert Takes(|st.list|)[1..] == Takes(|st.list| - 1);
      DrainIsWork(Process(st, NoTxFault));
    }
  }

  /** The table after one more order, if the table takes it. */
  function Append(st: Store, items: seq<Item>): Store {
    if RowsAccepted(items) then st.(orders := st.orders + [Row(items, Total(items), Confirmed, false)]) else st
  }

  /** First in, first out: what is pushed last is stored last. */
  lemma {:induction false} PushedLastStoredLast(st: Store, items: seq<Item>)
    ensures Drain(st.(list := [items] + st.list)) == Append(Drain(st), items)
    decreases |st.list|
  {
    var pushed := st.(list := [items] + st.list);
    var n := |st.list|;
    if n == 0 {
      assert pushed.list[..0] == [] && pushed.list[0] == items;
      assert Process(pushed, NoTxFault) == Append(st, items);
      assert Drain(Process(pushed, NoTxFault)) == Process(pushed, NoTxFault);
    } else {
      assert pushed.list[n] == st.list[n - 1] && pushed.list[..n] == [items] + st.list[..n - 1];
      var next := Process(st, NoTxFault);
      assert Process(pushed, NoTxFault) == next.(list := [items] + next.list);
      PushedLastStoredLast(next, items);
    }
  }

  /** Stock the queue knows nothing about. */
  lemma {:induction false} DrainIgnoresStock(st: Store, t: StockTable)
    ensures Drain(st.(stock := t)) == Drain(st).(stock := t)
    decreases |st.list|
  {
    if st.list != [] {
      DrainIgnoresStock(Process(st, NoTxFault), t);
      assert Process(st.(stock := t), NoTxFault) == Process(st, NoTxFault).(stock := t);
    }
  }

  /** One order, whatever was already queued: accepting it asynchronously and letting the worker empty the list is
      the same (stock, rows, status, totals) as emptying the list first and then creating and confirming it, if
      and only if the reservation fails, or the tables take its rows, or every compensation is lost: where the tables
      refuse the rows the synchronous path gives the stock back, and the asynchronous one has lost it. */
  lemma {:induction false} AsyncRefinesSyncIff(st: Store, items: seq<Item>, net: Network)
    requires ValidTable(st.stock) && Sane(items)
    ensures Drain(AsyncStep(st, items, net)) == SyncStep(Drain(st), items, net) <==>
            (|| !ReserveAll(st.stock, items, net).1
             || RowsAccepted(items)
             || (forall i :: 0 <= i < |items| ==> RefundLost(net, |items|, i)))
  {
    if RowsAccepted(items) {
      AcceptedStepRefines(st, items, net);
    } else {
      DrainKeepsStock(st);
      var r := ReserveAll(st.stock, items, net);
      DrainIgnoresStock(st, r.0);
      if r.1 {
        PushedLastStoredLast(st.(stock := r.0), items);
        RestoreGivesNothingIff(st.stock, items, net);
      }
    }
  }

  /** The compensations of a whole order leave the stock as reserved if and only if all of them are lost. */
  lemma {:induction false} RestoreGivesNothingIff(t: StockTable, items: seq<Item>, net: Network)
    requires ValidTable(t) && Sane(items) && ReserveAll(t, items, net).1
    ensures var u := ReserveAll(t, items, net).0;
            RestoreAll(u, items, net, |items|) == u <==> forall i :: 0 <= i < |items| ==> RefundLost(net, |items|, i)
  {
    var u := ReserveAll(t, items, net).0;
    var v := RestoreAll(u, items, net, |items|);
    ReserveTakesAll(t, items, net);
    AbortedOrderLaw(t, items, net, 0);
    assert items[0..|items|] == items;
    if forall i :: 0 <= i < |items| ==> RefundLost(net, |items|, i) {
      forall p | p in u ensures v[p] == u[p] {
        AbortedOrderLaw(t, items, net, p);
        LostRefundsAtMost(items, 0, |items|, net, |items|, p);
      }
    } else {
      var i :| 0 <= i < |items| && !RefundLost(net, |items|, i);
      var p := items[i].product;
      AbortedOrderLaw(t, items, net, p);
      LostRefundsAtMost(items, 0, |items|, net, |items|, p);
      assert v[p] > u[p];
    }
  }

  /** What the caller was promised is what gets stored, lines and total. */
  lemma {:induction false} PromiseIsKept(st: Store, items: seq<Item>, net: Network)
    requires Async(st, items, net, true).1.Accepted? && RowsAccepted(items)
    ensures var promise := Async(st, items, net, true).1;
            var stored := Drain(AsyncStep(st, items, net)).orders;
            && stored != []
            && stored[|stored| - 1] == Row(promise.items, promise.total, Confirmed, false)
  {
    var r := ReserveAll(st.stock, items, net);
    PushedLastStoredLast(st.(stock := r.0), items);
  }

  /** An order call: its items and what the network does to it. */
  datatype Job = Job(items: seq<Item>, net: Network)

  function SyncAll(st: Store, jobs: seq<Job>): Store {
    if jobs == [] then st
    else SyncStep(SyncAll(st, jobs[..|jobs| - 1]), jobs[|jobs| - 1].items, jobs[|jobs| - 1].net)
  }

  function AsyncAll(st: Store, jobs: seq<Job>): Store {
    if jobs == [] then st
    else AsyncStep(AsyncAll(st, jobs[..|jobs| - 1]), jobs[|jobs| - 1].items, jobs[|jobs| - 1].net)
  }

  lemma {:induction false} AcceptedStepRefines(st: Store, items: seq<Item>, net: Network)
    requires RowsAccepted(items)
    ensures Drain(AsyncStep(st, items, net)) == SyncStep(Drain(st), items, net)
  {
    DrainKeepsStock(st);
    var r := ReserveAll(st.stock, items, net);
    DrainIgnoresStock(st, r.0);
    if r.1 {
      PushedLastStoredLast(st.(stock := r.0), items);
    }
  }

  lemma {:induction false} RefusedStepRefines(st: Store, items: seq<Item>, net: Network)
    requires !RowsAccepted(items)
    requires ReserveAll(st.stock, items, net).1 ==> forall i :: 0 <= i < |items| ==> RefundLost(net, |items|, i)
    ensures Drain(AsyncStep(st, items, net)) == SyncStep(Drain(st), items, net)
  {
    DrainKeepsStock(st);
    var r := ReserveAll(st.stock, items, net);
    DrainIgnoresStock(st, r.0);
    if r.1 {
      PushedLastStoredLast(st.(stock := r.0), items);
      LostRestoresNothing(r.0, items, 0, |items|, net, |items|);
    }
  }

  /** The condition of `AsyncRefinesSyncIff`. */
  predicate Agreeable(t: StockTable, job: Job) {
    || !ReserveAll(t, job.items, job.net).1
    || RowsAccepted(job.items)
    || (forall i :: 0 <= i < |job.items| ==> RefundLost(job.net, |job.items|, i))
  }

  /** Each order in turn meets it. */
  predicate AllAgreeable(st: Store, jobs: seq<Job>) {
    jobs == []
    || (AllAgreeable(st, jobs[..|jobs| - 1])
        && Agreeable(AsyncAll(st, jobs[..|jobs| - 1]).stock, jobs[|jobs| - 1]))
  }

  lemma {:induction false} AgreeableStepRefines(st: Store, job: Job)
    requires Agreeable(st.stock, job)
    ensures Drain(AsyncStep(st, job.items, job.net)) == SyncStep(Drain(st), job.items, job.net)
  {
    if RowsAccepted(job.items) {
      AcceptedStepRefines(st, job.items, job.net);
    } else {
      RefusedStepRefines(st, job.items, job.net);
    }
  }

  /** Any sequence of orders, whatever was queued before: queueing them all and draining once gives the same stock and
      the same rows in the same order as draining first and then serving them one by one synchronously, provided each
      order is sold out, or stored, or gets nothing back in either. */
  lemma {:induction false} AsyncBatchRefinesSync(st: Store, jobs: seq<Job>)
    requires AllAgreeable(st, jobs)
    ensures Drain(AsyncAll(st, jobs)) == SyncAll(Drain(st), jobs)
  {
    if jobs != [] {
      var n := |jobs| - 1;
      AsyncBatchRefinesSync(st, jobs[..n]);
      AgreeableStepRefines(AsyncAll(st, jobs[..n]), jobs[n]);
    }
  }

  // ----- Cancel undoes create -----

  /** Cancelling the order just created, confirmed meanwhile or not, puts the stock back exactly, if and only if no
      increment is lost. */
  lemma {:induction false} CancelUndoesCreateIff(st: Store, items: seq<Item>, net: Network, confirmed: bool,
                                                 net': Network)
    requires ValidTable(st.stock) && Sane(items) && Create(st, items, net, NoTxFault).1.Accepted?
    ensures var created := if confirmed then SyncStep(st, items, net) else Create(st, items, net, NoTxFault).0;
            var (st', error) := CancelRow(created, |st.orders|, PLAIN, net');
            && created.orders == st.orders + [Row(items, Total(items), if confirmed then Confirmed else Pending, false)]
            && error.None?
            && st'.orders == st.orders + [Row(items, Total(items), Cancelled, true)]
            && (st'.stock == st.stock <==> forall i :: 0 <= i < |items| ==> !RefundLost(net', 0, i))
  {
    var t, u := st.stock, ReserveAll(st.stock, items, net).0;
    var t' := RestoreAll(u, items, net', 0);
    ReserveTakesAll(t, items, net);
    RestoreGives(u, items, 0, |items|, net', 0, 0);
    if forall i :: 0 <= i < |items| ==> !RefundLost(net', 0, i) {
      forall p | p in t ensures t'[p] == t[p] {
        RestoreGives(u, items, 0, |items|, net', 0, p);
        LostRefundsBounds(items, 0, |items|, net', 0, p);
      }
    } else {
      var i :| 0 <= i < |items| && RefundLost(net', 0, i);
      var p := items[i].product;
      RestoreGives(u, items, 0, |items|, net', 0, p);
      LostRefundsBounds(items, 0, |items|, net', 0, p);
      assert t'[p] < t[p];
    }
  }

  /** A second cancel, and a confirm after a cancel, change nothing. */
  lemma {:induction false} CancelledStaysPut(st: Store, r: nat, call: RowCall, net: Network, call': RowCall,
                                             net': Network)
    requires CancelRow(st, r, call, net).1.None?
    ensures var st' := CancelRow(st, r, call, net).0;
            && CancelRow(st', r, call', net').0 == st' && CancelRow(st', r, call', net').1.Some?
            && ConfirmRow(st', r, call').0 == st' && ConfirmRow(st', r, call').1.Some?
  {
  }
}
