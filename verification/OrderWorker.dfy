/** The order worker's loop: orders queued before it starts or pushed while it runs are taken first in, first out, and
    none is left behind. */
module OrderWorker {
  import opened Common
  import opened Pricing
  import opened OrderService
  import opened OrderFlows

  /** The queued orders in the order they were pushed. */
  function OldestFirst(list: seq<seq<Item>>): seq<seq<Item>> {
    seq(|list|, i requires 0 <= i < |list| => list[|list| - 1 - i])
  }

  function PushedBy(turns: seq<Turn>): seq<seq<Item>> {
    if turns == [] then []
    else (if turns[0].Push? then [turns[0].items] else []) + PushedBy(turns[1..])
  }

  /** How often the worker asks for an order and would be given one. */
  function Rounds(turns: seq<Turn>): nat {
    if turns == [] then 0 else (if turns[0].Take? then 1 else 0) + Rounds(turns[1..])
  }

  /** The rows of those orders that the tables take, in order. */
  function StoredRows(queue: seq<seq<Item>>): seq<Row> {
    if queue == [] then []
    else
      (if RowsAccepted(queue[0]) then [Row(queue[0], Total(queue[0]), Confirmed, false)] else [])
      + StoredRows(queue[1..])
  }

  predicate NoFaults(turns: seq<Turn>) {
    forall k :: 0 <= k < |turns| && turns[k].Take? ==> turns[k].fault.NoTxFault?
  }

  /** All orders the worker may get to, in the order they were pushed. */
  function QueueOver(st: Store, turns: seq<Turn>): seq<seq<Item>> {
    OldestFirst(st.list) + PushedBy(turns)
  }

  lemma {:induction false} TailIsOldest(list: seq<seq<Item>>)
    requires list != []
    ensures OldestFirst(list) == [list[|list| - 1]] + OldestFirst(list[..|list| - 1])
  {
  }

  lemma {:induction false} Regrouped<T>(a: seq<T>, b: seq<T>, c: seq<T>)
    ensures (a + b) + c == a + (b + c)
  {
  }

  lemma {:induction false} QueueTaken(st: Store, turns: seq<Turn>)
    requires turns != [] && turns[0].Take? && st.list != []
    ensures QueueOver(st, turns) == [st.list[|st.list| - 1]] + QueueOver(Process(st, turns[0].fault), turns[1..])
  {
    var rest := OldestFirst(st.list[..|st.list| - 1]);
    TailIsOldest(st.list);
    assert [] + PushedBy(turns[1..]) == PushedBy(turns[1..]);
    Regrouped([st.list[|st.list| - 1]], rest, PushedBy(turns[1..]));
  }

  lemma {:induction false} QueuePushed(st: Store, turns: seq<Turn>)
    requires turns != [] && turns[0].Push?
    ensures QueueOver(st, turns) == QueueOver(st.(list := [turns[0].items] + st.list), turns[1..])
  {
    assert PushedBy(turns) == [turns[0].items] + PushedBy(turns[1..]);
  }

  /** One round of the worker, whatever its transaction meets: the oldest order leaves the list, and is stored confirmed
      if and only if the tables take its rows and the transaction gets through; otherwise it is gone. */
  lemma {:induction false} RoundStoresIff(st: Store, f: TxFault)
    requires st.list != []
    ensures var st', oldest := Process(st, f), OldestFirst(st.list)[0];
            && OldestFirst(st'.list) == OldestFirst(st.list)[1..] && st'.stock == st.stock
            && st'.orders == st.orders + (if RowsAccepted(oldest) && TxGetsThrough(f, |oldest|)
                                          then [Row(oldest, Total(oldest), Confirmed, false)] else [])
  {
    TailIsOldest(st.list);
  }

  /** The worker has taken `n` orders from the front of the queue, one a round as long as there was one; the rest is
      still queued, and if nothing failed exactly the rows the tables take of those `n` were added, in that order. */
  ghost predicate Serves(queue: seq<seq<Item>>, st: Store, st': Store, rounds: nat, clean: bool, n: nat) {
    && n <= |queue| && OldestFirst(st'.list) == queue[n..]
    && Min(|st.list|, rounds) <= n <= rounds
    && st'.stock == st.stock && st.orders <= st'.orders
    && (clean ==> st'.orders == st.orders + StoredRows(queue[..n]))
  }

  ghost predicate ServedInOrder(st: Store, turns: seq<Turn>, n: nat) {
    Serves(QueueOver(st, turns), st, Work(st, turns), Rounds(turns), NoFaults(turns), n)
  }

  lemma {:induction false} FirstStored(items: seq<Item>, queue: seq<seq<Item>>)
    ensures StoredRows([items] + queue) == StoredRows([items]) + StoredRows(queue)
  {
    assert ([items] + queue)[1..] == queue;
  }

  lemma {:induction false} ServesOneMore(queue: seq<seq<Item>>, st: Store, f: TxFault, st': Store, rounds: nat,
                                         clean: bool, n: nat)
    requires st.list != [] && Serves(queue, Process(st, f), st', rounds, clean, n)
    ensures Serves([st.list[|st.list| - 1]] + queue, st, st', rounds + 1, clean && f.NoTxFault?, n + 1)
  {
    var oldest := st.list[|st.list| - 1];
    assert ([oldest] + queue)[n + 1..] == queue[n..] && ([oldest] + queue)[..n + 1] == [oldest] + queue[..n];
    FirstStored(oldest, queue[..n]);
    assert StoredRows([oldest][1..]) == [];
  }

  lemma {:induction false} RoundServes(st: Store, turns: seq<Turn>, n: nat)
    requires turns != [] && turns[0].Take? && st.list != []
    requires ServedInOrder(Process(st, turns[0].fault), turns[1..], n)
    ensures ServedInOrder(st, turns, n + 1)
  {
    var st1, rest := Process(st, turns[0].fault), turns[1..];
    QueueTaken(st, turns);
    ServesOneMore(QueueOver(st1, rest), st, turns[0].fault, Work(st1, rest), Rounds(rest), NoFaults(rest), n);
    assert NoFaults(turns) ==> NoFaults(rest) && turns[0].fault.NoTxFault?;
  }

  lemma {:induction false} PushServes(st: Store, turns: seq<Turn>, m: nat)
    requires turns != [] && turns[0].Push?
    requires ServedInOrder(st.(list := [turns[0].items] + st.list), turns[1..], m)
    ensures ServedInOrder(st, turns, m)
  {
    QueuePushed(st, turns);
    assert NoFaults(turns) ==> NoFaults(turns[1..]);
  }

  lemma {:induction false} WaitServes(st: Store, turns: seq<Turn>, m: nat)
    requires turns != [] && (turns[0].NoOrder? || (turns[0].Take? && st.list == []))
    requires ServedInOrder(st, turns[1..], m)
    ensures ServedInOrder(st, turns, m)
  {
    assert PushedBy(turns) == PushedBy(turns[1..]);
    assert NoFaults(turns) ==> NoFaults(turns[1..]);
  }

  /** The worker gets to the queued orders and those pushed meanwhile first in, first out, whatever turns it takes. */
  lemma {:induction false} WorkServesInOrder(st: Store, turns: seq<Turn>) returns (n: nat)
    ensures ServedInOrder(st, turns, n)
    decreases |turns|
  {
    if turns == [] {
      n := 0;
    } else {
      n := WorkServesInOrder(Turned(st, turns[0]), turns[1..]);
      if turns[0].Take? && st.list != [] {
        RoundServes(st, turns, n);
        n := n + 1;
      } else if turns[0].Push? {
        PushServes(st, turns, n);
      } else {
        WaitServes(st, turns, n);
      }
    }
  }

  predicate EndsTaking(turns: seq<Turn>, m: nat) {
    m <= |turns| && forall k :: |turns| - m <= k < |turns| ==> turns[k].Take?
  }

  lemma {:induction false} WorkBoth(st: Store, turns: seq<Turn>, more: seq<Turn>)
    ensures Work(st, turns + more) == Work(Work(st, turns), more)
    ensures PushedBy(turns + more) == PushedBy(turns) + PushedBy(more)
    decreases |turns|
  {
    if turns == [] {
      assert turns + more == more;
    } else {
      assert (turns + more)[1..] == turns[1..] + more;
      WorkBoth(Turned(st, turns[0]), turns[1..], more);
    }
  }

  lemma {:induction false} OnlyRounds(turns: seq<Turn>)
    requires forall k :: 0 <= k < |turns| ==> turns[k].Take?
    ensures Rounds(turns) == |turns| && PushedBy(turns) == []
  {
    if turns != [] {
      OnlyRounds(turns[1..]);
    }
  }

  /** No accepted order is left behind: when the loop ends with as many rounds as there were orders, queued before or
      pushed meanwhile, the list is empty and, with no fault, each of them that the tables take has its row, in the
      order they were pushed. */
  lemma {:induction false} WorkerEmptiesTheList(st: Store, turns: seq<Turn>)
    requires EndsTaking(turns, |st.list| + |PushedBy(turns)|)
    ensures Work(st, turns).list == []
    ensures NoFaults(turns) ==>
            Work(st, turns).orders == st.orders + StoredRows(QueueOver(st, turns))
  {
    var m := |st.list| + |PushedBy(turns)|;
    var a, b := turns[..|turns| - m], turns[|turns| - m..];
    assert turns == a + b;
    WorkBoth(st, a, b);
    OnlyRounds(b);
    var i := WorkServesInOrder(st, a);
    var j := WorkServesInOrder(Work(st, a), b);
    var n := WorkServesInOrder(st, turns);
    var queue := QueueOver(st, turns);
    assert queue[..|queue|] == queue;
  }
}
