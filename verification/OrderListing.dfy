/** Listing orders with their items: one LEFT JOIN cut to a page and grouped, in place of one query for the orders
    and one for the items of each. */
module OrderListing {
  import opened Common
  import opened Sums

  datatype Item = Item(id: nat, product: nat, quantity: int, subtotal: int)

  /** The columns of an order; those not named here are carried along the same way. */
  datatype Head = Head(id: nat, total: int, createdAt: nat)

  /** An order with its items, as the table holds it and as it is answered. */
  datatype Listing = Listing(head: Head, items: seq<Item>)

  /** One row of the join; `item` is None for an order without items. */
  datatype Row = Row(head: Head, item: Option<Item>)

  // ----- The join -----

  function RowsOf(l: Listing): seq<Row> {
    if l.items == [] then [Row(l.head, None)]
    else seq(|l.items|, i requires 0 <= i < |l.items| => Row(l.head, Some(l.items[i])))
  }

  /** Orders newest first, the items of each in turn. */
  function Join(ls: seq<Listing>): seq<Row> {
    if ls == [] then [] else Join(ls[..|ls| - 1]) + RowsOf(ls[|ls| - 1])
  }

  ghost function LineCount(): Listing -> int {
    (l: Listing) => if l.items == [] then 1 else |l.items|
  }

  ghost function RowCount(ls: seq<Listing>): int {
    Sum(ls, LineCount())
  }

  ghost predicate DistinctOrders(ls: seq<Listing>) {
    forall j, k :: 0 <= j < k < |ls| ==> ls[j].head.id != ls[k].head.id
  }

  lemma {:induction false} JoinLength(ls: seq<Listing>)
    ensures |Join(ls)| == RowCount(ls) >= |ls|
  {
    if ls != [] {
      JoinLength(ls[..|ls| - 1]);
    }
  }

  lemma {:induction false} JoinAppend(ls: seq<Listing>, l: Listing)
    ensures Join(ls + [l]) == Join(ls) + RowsOf(l)
  {
    assert (ls + [l])[..|ls|] == ls;
  }

  lemma {:induction false} JoinConcat(a: seq<Listing>, b: seq<Listing>)
    ensures Join(a + b) == Join(a) + Join(b)
  {
    if b == [] {
      assert a + b == a;
    } else {
      var front, l := b[..|b| - 1], b[|b| - 1];
      assert b == front + [l] && a + b == (a + front) + [l];
      JoinConcat(a, front);
      JoinAppend(a + front, l);
      JoinAppend(front, l);
    }
  }

  lemma {:induction false} JoinRowsFrom(ls: seq<Listing>, k: nat) returns (j: nat)
    requires k < |Join(ls)|
    ensures j < |ls| && Join(ls)[k].head == ls[j].head
  {
    var n := |ls| - 1;
    if k < |Join(ls[..n])| {
      j := JoinRowsFrom(ls[..n], k);
    } else {
      j := n;
    }
  }

  // ----- Grouping: what it means -----

  /** Order ids as they first appear. */
  function Firsts(rows: seq<Row>): seq<nat> {
    if rows == [] then []
    else
      var before, id := Firsts(rows[..|rows| - 1]), rows[|rows| - 1].head.id;
      if id in before then before else before + [id]
  }

  function ItemIn(r: Row): seq<Item> {
    if r.item.Some? then [r.item.value] else []
  }

  /** The items on the rows of one order, in row order. */
  function ItemsOf(rows: seq<Row>, id: nat): seq<Item> {
    if rows == [] then []
    else
      var r := rows[|rows| - 1];
      ItemsOf(rows[..|rows| - 1], id) + (if r.head.id == id then ItemIn(r) else [])
  }

  /** The columns of one order, taken from its first row. */
  function HeadOf(rows: seq<Row>, id: nat): Head {
    if rows == [] then Head(id, 0, 0)
    else if rows[0].head.id == id then rows[0].head
    else HeadOf(rows[1..], id)
  }

  function GroupFor(rows: seq<Row>, id: nat): Listing {
    Listing(HeadOf(rows, id), ItemsOf(rows, id))
  }

  function Grouped(rows: seq<Row>): seq<Listing> {
    seq(|Firsts(rows)|, k requires 0 <= k < |Firsts(rows)| => GroupFor(rows, Firsts(rows)[k]))
  }

  predicate Appears(rows: seq<Row>, id: nat) {
    exists k :: 0 <= k < |rows| && rows[k].head.id == id
  }

  lemma {:induction false} FirstsAppear(rows: seq<Row>, id: nat)
    ensures id in Firsts(rows) <==> Appears(rows, id)
  {
    if rows != [] {
      var n := |rows| - 1;
      FirstsAppear(rows[..n], id);
      if k :| 0 <= k < |rows| && rows[k].head.id == id {
        assert k < n ==> rows[..n][k].head.id == id;
      }
    }
  }

  lemma {:induction false} FirstsDistinct(rows: seq<Row>)
    ensures forall j, k :: 0 <= j < k < |Firsts(rows)| ==> Firsts(rows)[j] != Firsts(rows)[k]
  {
    if rows != [] {
      FirstsDistinct(rows[..|rows| - 1]);
    }
  }

  lemma {:induction false} AbsentHasNoItems(rows: seq<Row>, id: nat)
    requires !Appears(rows, id)
    ensures ItemsOf(rows, id) == []
  {
    if rows != [] {
      var n := |rows| - 1;
      assert rows[n].head.id != id;
      forall k | 0 <= k < n ensures rows[..n][k].head.id != id {
        assert rows[k].head.id != id;
      }
      AbsentHasNoItems(rows[..n], id);
    }
  }

  lemma {:induction false} HeadConcat(a: seq<Row>, b: seq<Row>, id: nat)
    ensures HeadOf(a + b, id) == if Appears(a, id) then HeadOf(a, id) else HeadOf(b, id)
  {
    if a == [] {
      assert a + b == b;
    } else if a[0].head.id == id {
      assert Appears(a, id);
    } else {
      assert (a + b)[1..] == a[1..] + b;
      HeadConcat(a[1..], b, id);
      if Appears(a, id) {
        var k :| 0 <= k < |a| && a[k].head.id == id;
        assert a[1..][k - 1].head.id == id;
      }
    }
  }

  /** One more row either opens a group at the end or adds its item to the group of its order. */
  lemma {:induction false} OneMoreRow(rows: seq<Row>, r: Row) returns (i: nat)
    ensures var g, g' := Grouped(rows), Grouped(rows + [r]);
            if Appears(rows, r.head.id) then
              i < |g| && Firsts(rows)[i] == r.head.id && g' == g[i := g[i].(items := g[i].items + ItemIn(r))]
            else
              g' == g + [Listing(r.head, ItemIn(r))]
  {
    var id := r.head.id;
    var g, g' := Grouped(rows), Grouped(rows + [r]);
    assert (rows + [r])[..|rows|] == rows;
    FirstsAppear(rows, id);
    FirstsDistinct(rows);
    forall k | 0 <= k < |Firsts(rows)|
      ensures GroupFor(rows + [r], Firsts(rows)[k])
           == Listing(HeadOf(rows, Firsts(rows)[k]),
                      ItemsOf(rows, Firsts(rows)[k]) + if Firsts(rows)[k] == id then ItemIn(r) else [])
    {
      FirstsAppear(rows, Firsts(rows)[k]);
      HeadConcat(rows, [r], Firsts(rows)[k]);
    }
    if Appears(rows, id) {
      i :| 0 <= i < |Firsts(rows)| && Firsts(rows)[i] == id;
      forall k | 0 <= k < |g| ensures g'[k] == if k == i then g[i].(items := g[i].items + ItemIn(r)) else g[k] {
        assert g[k] == GroupFor(rows, Firsts(rows)[k]);
        assert k != i ==> Firsts(rows)[k] != id;
      }
      assert g' == g[i := g[i].(items := g[i].items + ItemIn(r))];
    } else {
      HeadConcat(rows, [r], id);
      AbsentHasNoItems(rows, id);
      i := |g|;
      assert g'[i] == Listing(r.head, ItemIn(r));
      forall k | 0 <= k < |g| ensures g'[k] == g[k] {
        assert g[k] == GroupFor(rows, Firsts(rows)[k]);
      }
      assert g' == g + [Listing(r.head, ItemIn(r))];
    }
  }

  // ----- Grouping: the loop -----

  /** The dictionary of the loop: `keys` in insertion order. */
  method RowsToOrders(rows: seq<Row>) returns (out: seq<Listing>)
    ensures out == Grouped(rows)
  {
    var keys: seq<nat>, dict: map<nat, Listing> := [], map[];
    var n := 0;
    while n < |rows|
      invariant n <= |rows|
      invariant keys == Firsts(rows[..n])
      invariant forall k :: 0 <= k < |keys| ==> keys[k] in dict && dict[keys[k]] == GroupFor(rows[..n], keys[k])
      invariant forall id :: id in dict ==> id in keys
    {
      var row := rows[n];
      var id := row.head.id;
      assert rows[..n + 1] == rows[..n] + [row];
      ghost var i := OneMoreRow(rows[..n], row);
      ghost var before, g, g' := keys, Grouped(rows[..n]), Grouped(rows[..n + 1]);
      FirstsAppear(rows[..n], id);
      FirstsDistinct(rows[..n]);
      if id !in dict {
        keys, dict := keys + [id], dict[id := Listing(row.head, [])];
      }
      if row.item.Some? {
        dict := dict[id := dict[id].(items := dict[id].items + [row.item.value])];
      }
      n := n + 1;
      assert keys == Firsts(rows[..n]) by { assert rows[..n][..n - 1] == rows[..n - 1]; }
      forall k | 0 <= k < |keys| ensures keys[k] in dict && dict[keys[k]] == GroupFor(rows[..n], keys[k]) {
        assert g'[k] == GroupFor(rows[..n], keys[k]);
        if k < |before| {
          assert g[k] == GroupFor(rows[..n - 1], before[k]);
        }
      }
    }
    assert rows[..n] == rows;
    out := seq(|keys|, k requires 0 <= k < |keys| && keys[k] in dict => dict[keys[k]]);
  }

  // ----- Grouping undoes the join -----

  ghost predicate Apart(a: seq<Row>, b: seq<Row>) {
    forall j, k :: 0 <= j < |a| && 0 <= k < |b| ==> a[j].head.id != b[k].head.id
  }

  lemma {:induction false} GroupsConcat(a: seq<Row>, b: seq<Row>)
    requires Apart(a, b)
    ensures Grouped(a + b) == Grouped(a) + Grouped(b)
  {
    if b == [] {
      assert a + b == a;
    } else {
      var n := |b| - 1;
      GroupsConcat(a, b[..n]);
      assert a + b == (a + b[..n]) + [b[n]] && b == b[..n] + [b[n]];
      AppearsApart(a, b[..n], b[n].head.id);
      RowAfterConcat(a, b[..n], b[n]);
    }
  }

  lemma {:induction false} AppearsApart(a: seq<Row>, b: seq<Row>, id: nat)
    requires !Appears(a, id)
    ensures Appears(a + b, id) <==> Appears(b, id)
  {
    if k :| 0 <= k < |b| && b[k].head.id == id {
      assert (a + b)[|a| + k].head.id == id;
    } else if k :| 0 <= k < |a + b| && (a + b)[k].head.id == id {
      assert if k < |a| then a[k].head.id == id else b[k - |a|].head.id == id;
    }
  }

  lemma {:induction false} RowAfterConcat(a: seq<Row>, b: seq<Row>, r: Row)
    requires Grouped(a + b) == Grouped(a) + Grouped(b)
    requires Appears(a + b, r.head.id) <==> Appears(b, r.head.id)
    ensures Grouped((a + b) + [r]) == Grouped(a) + Grouped(b + [r])
  {
    var i := OneMoreRow(a + b, r);
    var j := OneMoreRow(b, r);
    if Appears(b, r.head.id) {
      GroupHead(b, j);
      GroupHead(a + b, |Grouped(a)| + j);
      FirstsDistinct(a + b);
      assert i == |Grouped(a)| + j;
    }
  }

  /** The head of a group bears the group's id. */
  lemma {:induction false} GroupHead(rows: seq<Row>, k: nat)
    requires k < |Firsts(rows)|
    ensures Grouped(rows)[k].head.id == Firsts(rows)[k]
  {
    FirstsAppear(rows, Firsts(rows)[k]);
    HeadBears(rows, Firsts(rows)[k]);
  }

  lemma {:induction false} HeadBears(rows: seq<Row>, id: nat)
    ensures HeadOf(rows, id).id == id
  {
    if rows != [] && rows[0].head.id != id {
      HeadBears(rows[1..], id);
    }
  }

  lemma {:induction false} GroupOfPrefix(l: Listing, k: nat)
    requires 1 <= k <= |l.items|
    ensures Grouped(RowsOf(l)[..k]) == [Listing(l.head, l.items[..k])]
  {
    var rows := RowsOf(l)[..k - 1];
    assert RowsOf(l)[..k] == rows + [RowsOf(l)[k - 1]];
    var i := OneMoreRow(rows, RowsOf(l)[k - 1]);
    if k > 1 {
      GroupOfPrefix(l, k - 1);
      assert rows[0].head == l.head;
      assert l.items[..k] == l.items[..k - 1] + [l.items[k - 1]];
    } else {
      assert rows == [] && l.items[..1] == [l.items[0]];
    }
  }

  lemma {:induction false} GroupOfOne(l: Listing)
    ensures Grouped(RowsOf(l)) == [l]
  {
    if l.items == [] {
      var i := OneMoreRow([], Row(l.head, None));
      assert RowsOf(l) == [] + [Row(l.head, None)];
    } else {
      GroupOfPrefix(l, |l.items|);
      assert RowsOf(l)[..|l.items|] == RowsOf(l) && l.items[..|l.items|] == l.items;
    }
  }

  lemma {:induction false} JoinApart(a: seq<Listing>, b: seq<Listing>)
    requires DistinctOrders(a + b)
    ensures Apart(Join(a), Join(b))
  {
    forall j, k | 0 <= j < |Join(a)| && 0 <= k < |Join(b)| ensures Join(a)[j].head.id != Join(b)[k].head.id {
      var u := JoinRowsFrom(a, j);
      var v := JoinRowsFrom(b, k);
      assert (a + b)[u] == a[u] && (a + b)[|a| + v] == b[v];
    }
  }

  /** Grouping undoes flattening: the join of any distinct orders, those without items included, groups back to
      exactly those orders, each with its items in order. */
  lemma {:induction false} GroupingUndoesJoin(ls: seq<Listing>)
    requires DistinctOrders(ls)
    ensures Grouped(Join(ls)) == ls
  {
    if ls != [] {
      var n := |ls| - 1;
      var l := ls[n];
      assert ls == ls[..n] + [l];
      GroupingUndoesJoin(ls[..n]);
      JoinApart(ls[..n], [l]);
      JoinOfOne(l);
      GroupsConcat(Join(ls[..n]), RowsOf(l));
      GroupOfOne(l);
    }
  }

  lemma {:induction false} JoinOfOne(l: Listing)
    ensures Join([l]) == RowsOf(l)
  {
  }

  // ----- Grouping of any rows -----

  /** Where an order first appears. */
  function FirstRow(rows: seq<Row>, id: nat): nat {
    if rows == [] || rows[0].head.id == id then 0 else 1 + FirstRow(rows[1..], id)
  }

  lemma {:induction false} FirstRowIs(rows: seq<Row>, id: nat)
    requires Appears(rows, id)
    ensures var k := FirstRow(rows, id);
            && k < |rows| && rows[k].head.id == id && rows[k].head == HeadOf(rows, id)
            && (forall j :: 0 <= j < k ==> rows[j].head.id != id)
  {
    if rows[0].head.id != id {
      var k :| 0 <= k < |rows| && rows[k].head.id == id;
      assert rows[1..][k - 1].head.id == id;
      FirstRowIs(rows[1..], id);
      forall j | 0 <= j < FirstRow(rows, id) ensures rows[j].head.id != id {
        assert j > 0 ==> rows[j] == rows[1..][j - 1];
      }
    }
  }

  /** However rows are interleaved, there is one group per order, in order of first appearance, headed by the first
      row of its order. */
  lemma {:induction false} GroupsInOrderOfAppearance(rows: seq<Row>)
    ensures var g := Grouped(rows);
            && (forall k :: 0 <= k < |g| ==>
                  && Appears(rows, g[k].head.id)
                  && FirstRow(rows, g[k].head.id) < |rows|
                  && g[k] == Listing(rows[FirstRow(rows, g[k].head.id)].head, ItemsOf(rows, g[k].head.id)))
            && (forall j, k :: 0 <= j < k < |g| ==> FirstRow(rows, g[j].head.id) < FirstRow(rows, g[k].head.id))
            && (forall id :: Appears(rows, id) ==> exists k :: 0 <= k < |g| && g[k].head.id == id)
  {
    var g := Grouped(rows);
    forall k | 0 <= k < |g|
      ensures Firsts(rows)[k] == g[k].head.id && Appears(rows, g[k].head.id)
      ensures FirstRow(rows, g[k].head.id) < |rows|
      ensures g[k] == Listing(rows[FirstRow(rows, g[k].head.id)].head, ItemsOf(rows, g[k].head.id))
    {
      GroupHead(rows, k);
      FirstsAppear(rows, Firsts(rows)[k]);
      FirstRowIs(rows, Firsts(rows)[k]);
    }
    forall j, k | 0 <= j < k < |g| ensures FirstRow(rows, g[j].head.id) < FirstRow(rows, g[k].head.id) {
      FirstsInOrder(rows, j, k);
    }
    forall id | Appears(rows, id) ensures exists k :: 0 <= k < |g| && g[k].head.id == id {
      FirstsAppear(rows, id);
      var k :| 0 <= k < |Firsts(rows)| && Firsts(rows)[k] == id;
      assert g[k].head.id == id;
    }
  }

  lemma {:induction false} FirstsInOrder(rows: seq<Row>, j: nat, k: nat)
    requires j < k < |Firsts(rows)|
    ensures FirstRow(rows, Firsts(rows)[j]) < FirstRow(rows, Firsts(rows)[k])
  {
    var n := |rows| - 1;
    var before := rows[..n];
    assert rows == before + [rows[n]];
    FirstsAppear(before, Firsts(rows)[j]);
    FirstRowStays(before, rows[n], Firsts(rows)[j]);
    FirstRowIs(before, Firsts(rows)[j]);
    if k < |Firsts(before)| {
      FirstsAppear(before, Firsts(rows)[k]);
      FirstRowStays(before, rows[n], Firsts(rows)[k]);
      FirstsInOrder(before, j, k);
    } else {
      var id := Firsts(rows)[k];
      FirstsAppear(rows, id);
      FirstsAppear(before, id);
      FirstRowIs(rows, id);
      forall i | 0 <= i < n ensures rows[i].head.id != id {
        assert before[i] == rows[i];
      }
    }
  }

  lemma {:induction false} FirstRowStays(rows: seq<Row>, r: Row, id: nat)
    requires Appears(rows, id)
    ensures FirstRow(rows + [r], id) == FirstRow(rows, id)
  {
    assert (rows + [r])[0] == rows[0];
    if rows[0].head.id != id {
      var k :| 0 <= k < |rows| && rows[k].head.id == id;
      assert rows[1..][k - 1].head.id == id;
      assert (rows + [r])[1..] == rows[1..] + [r];
      FirstRowStays(rows[1..], r, id);
    }
  }

  /** Row `k` carries an item of order `id`. */
  predicate Carries(rows: seq<Row>, id: nat, k: nat) {
    k < |rows| && rows[k].head.id == id && rows[k].item.Some?
  }

  /** `items` come from the rows numbered `at`, in row order. */
  ghost predicate Sourced(rows: seq<Row>, id: nat, items: seq<Item>, at: seq<nat>) {
    && |at| == |items|
    && (forall k :: 0 <= k < |at| ==> Carries(rows, id, at[k]) && rows[at[k]].item.value == items[k])
    && (forall j, k :: 0 <= j < k < |at| ==> at[j] < at[k])
  }

  ghost predicate AllSourced(rows: seq<Row>, id: nat, at: seq<nat>) {
    forall i :: Carries(rows, id, i) ==> i in at
  }

  lemma {:induction false} SourcedStep(rows: seq<Row>, r: Row, id: nat, items: seq<Item>, at: seq<nat>)
    requires Sourced(rows, id, items, at)
    ensures Sourced(rows + [r], id, items, at)
    ensures Carries(rows + [r], id, |rows|) ==> Sourced(rows + [r], id, items + [r.item.value], at + [|rows|])
  {
  }

  lemma {:induction false} AllSourcedStep(rows: seq<Row>, r: Row, id: nat, at: seq<nat>)
    requires AllSourced(rows, id, at)
    ensures if Carries(rows + [r], id, |rows|) then AllSourced(rows + [r], id, at + [|rows|])
            else AllSourced(rows + [r], id, at)
  {
  }

  /** A group's items are those of its order's rows, each row once and in row order: `at` says which row each item
      comes from. */
  lemma {:induction false} ItemsAreThoseOfTheRows(rows: seq<Row>, id: nat) returns (at: seq<nat>)
    ensures Sourced(rows, id, ItemsOf(rows, id), at) && AllSourced(rows, id, at)
  {
    at := [];
    if rows != [] {
      var n := |rows| - 1;
      at := ItemsAreThoseOfTheRows(rows[..n], id);
      SourcedStep(rows[..n], rows[n], id, ItemsOf(rows[..n], id), at);
      AllSourcedStep(rows[..n], rows[n], id, at);
      assert rows == rows[..n] + [rows[n]];
      if Carries(rows, id, n) {
        at := at + [n];
      }
    }
  }

  ghost function Same(x: Item): Item -> int {
    (i: Item) => if i == x then 1 else 0
  }

  /** How often `x` is listed. */
  ghost function TimesIn(x: Item): Listing -> int {
    (l: Listing) => Sum(l.items, Same(x))
  }

  ghost function TimesOn(x: Item): Row -> int {
    (r: Row) => Sum(ItemIn(r), Same(x))
  }

  /** No item is lost and none is duplicated: each is listed as often as the rows carry it. */
  lemma {:induction false} NothingLostOrDuplicated(rows: seq<Row>, x: Item)
    ensures Sum(Grouped(rows), TimesIn(x)) == Sum(rows, TimesOn(x))
  {
    if rows != [] {
      var before, r := rows[..|rows| - 1], rows[|rows| - 1];
      NothingLostOrDuplicated(before, x);
      assert rows == before + [r];
      var i := OneMoreRow(before, r);
      var g := Grouped(before);
      SumAppend(before, r, TimesOn(x));
      if Appears(before, r.head.id) {
        SumConcat(g[i].items, ItemIn(r), Same(x));
        SumUpdate(g, i, g[i].(items := g[i].items + ItemIn(r)), TimesIn(x));
      } else {
        SumAppend(g, Listing(r.head, ItemIn(r)), TimesIn(x));
      }
    }
  }

  /** The groups need no more rows than there were. */
  lemma {:induction false} GroupsNeedNoMoreRows(rows: seq<Row>)
    ensures RowCount(Grouped(rows)) <= |rows|
  {
    if rows != [] {
      var before, r := rows[..|rows| - 1], rows[|rows| - 1];
      GroupsNeedNoMoreRows(before);
      assert rows == before + [r];
      var i := OneMoreRow(before, r);
      var g := Grouped(before);
      if Appears(before, r.head.id) {
        SumUpdate(g, i, g[i].(items := g[i].items + ItemIn(r)), LineCount());
      } else {
        SumAppend(g, Listing(r.head, ItemIn(r)), LineCount());
      }
    }
  }

  // ----- Pages -----

  /** OFFSET and LIMIT. */
  function Slice<T>(s: seq<T>, offset: nat, limit: nat): seq<T> {
    s[Min(offset, |s|)..Min(Min(offset, |s|) + limit, |s|)]
  }

  /** The join cut at the offset to ten rows an order, grouped, cut to size. */
  function JoinFrom(orders: seq<Listing>, offset: nat, size: nat): seq<Listing> {
    var g := Grouped(Slice(Join(orders), offset, size * 10));
    g[..Min(size, |g|)]
  }

  /** What the code answers. */
  function JoinPage(orders: seq<Listing>, page: nat, size: nat): seq<Listing>
    requires page >= 1
  {
    JoinFrom(orders, (page - 1) * size, size)
  }

  /** What one query for the orders and one for the items of each would answer. */
  function PlainPage(orders: seq<Listing>, page: nat, size: nat): seq<Listing>
    requires page >= 1
  {
    Slice(orders, (page - 1) * size, size)
  }

  /** A page of orders shows the orders from number (page - 1) * size on, `size` of them or as many as there are. */
  lemma {:induction false} PlainPageShows(orders: seq<Listing>, page: nat, size: nat)
    requires page >= 1
    ensures var shown := PlainPage(orders, page, size);
            var first := (page - 1) * size;
            && |shown| == Min(size, Positive(|orders| - first))
            && (forall k :: 0 <= k < |shown| ==> shown[k] == orders[first + k])
  {
  }

  /** The first `n` pages, one after the other. */
  function FirstPages(orders: seq<Listing>, n: nat, size: nat): seq<Listing> {
    if n == 0 then [] else FirstPages(orders, n - 1, size) + PlainPage(orders, n, size)
  }

  /** Turning the pages shows every order once, in order: the first `n` pages are the first n * size orders. */
  lemma {:induction false} PagesShowEveryOrder(orders: seq<Listing>, n: nat, size: nat)
    ensures FirstPages(orders, n, size) == orders[..Min(n * size, |orders|)]
  {
    if n > 0 {
      PagesShowEveryOrder(orders, n - 1, size);
      assert n * size == (n - 1) * size + size;
      NextSlice(orders, (n - 1) * size, size);
    }
  }

  lemma {:induction false} NextSlice<T>(s: seq<T>, offset: nat, limit: nat)
    ensures s[..Min(offset, |s|)] + Slice(s, offset, limit) == s[..Min(offset + limit, |s|)]
  {
  }

  /** The rows of the first `n` orders, or of all. */
  ghost function RowsBefore(orders: seq<Listing>, n: nat): int {
    RowCount(orders[..Min(n, |orders|)])
  }

  /** The rows of the `size` orders from number `first` on. */
  ghost function RowsOn(orders: seq<Listing>, first: nat, size: nat): int {
    RowCount(orders[Min(first, |orders|)..Min(first + size, |orders|)])
  }

  /** The database cuts the join by OFFSET and LIMIT before it is grouped. */
  method ListOrders(orders: seq<Listing>, page: nat, size: nat) returns (list: seq<Listing>)
    requires page >= 1 && size >= 1
    ensures list == JoinPage(orders, page, size)
    ensures DistinctOrders(orders) ==>
            var first := (page - 1) * size;
            (list == orders[Min(first, |orders|)..Min(first + size, |orders|)] <==>
             RowsBefore(orders, first) <= first && RowsOn(orders, first, size) <= size * 10)
  {
    if DistinctOrders(orders) {
      JoinPageIsPlainPageIff(orders, page, size);
    }
    var offset, joinLimit := (page - 1) * size, size * 10;
    var rows := Slice(Join(orders), offset, joinLimit);
    list := RowsToOrders(rows);
    list := list[..Min(size, |list|)];
  }

  lemma {:induction false} RowCountGrows(ls: seq<Listing>, k: nat)
    requires k <= |ls|
    ensures k <= RowCount(ls[..k]) <= RowCount(ls) - (|ls| - k)
  {
    assert ls == ls[..k] + ls[k..];
    SumConcat(ls[..k], ls[k..], LineCount());
    JoinLength(ls[..k]);
    JoinLength(ls[k..]);
  }

  lemma {:induction false} SliceSkips<T>(a: seq<T>, b: seq<T>, offset: nat, limit: nat)
    requires |a| == offset || (|a| <= offset && b == [])
    ensures Slice(a + b, offset, limit) == Slice(b, 0, limit)
  {
  }

  lemma {:induction false} SliceTakes<T>(a: seq<T>, b: seq<T>, limit: nat)
    requires |a| <= limit
    ensures Slice(a + b, 0, limit) == a + Slice(b, 0, limit - |a|)
  {
  }

  lemma {:induction false} JoinSplit(ls: seq<Listing>, k: nat)
    requires k <= |ls|
    ensures Join(ls) == Join(ls[..k]) + Join(ls[k..])
    ensures |Join(ls[..k])| == RowCount(ls[..k]) >= k
  {
    assert ls == ls[..k] + ls[k..];
    JoinConcat(ls[..k], ls[k..]);
    JoinLength(ls[..k]);
  }

  /** When the skipped orders take no more rows than the offset, the rows sent start where the page starts. */
  lemma {:induction false} OffsetSkipsOrders(orders: seq<Listing>, offset: nat, limit: nat)
    requires RowsBefore(orders, offset) <= offset
    ensures Slice(Join(orders), offset, limit) == Slice(Join(orders[Min(offset, |orders|)..]), 0, limit)
  {
    var k := Min(offset, |orders|);
    JoinSplit(orders, k);
    if k == |orders| {
      assert orders[k..] == [];
    }
    SliceSkips(Join(orders[..k]), Join(orders[k..]), offset, limit);
  }

  lemma {:induction false} FrontOf<T>(p: seq<T>, more: seq<T>, size: nat)
    requires |p| == size || (|p| < size && more == [])
    ensures (p + more)[..Min(size, |p + more|)] == p
  {
  }

  /** Rows of further orders do not show on a full page. */
  lemma {:induction false} PageOfPrefix(ls: seq<Listing>, size: nat)
    requires DistinctOrders(ls) && RowCount(ls[..Min(size, |ls|)]) <= size * 10
    ensures var g := Grouped(Slice(Join(ls), 0, size * 10)); g[..Min(size, |g|)] == ls[..Min(size, |ls|)]
  {
    var m := Min(size, |ls|);
    var p, q := ls[..m], ls[m..];
    JoinSplit(ls, m);
    var more := Slice(Join(q), 0, size * 10 - |Join(p)|);
    SliceTakes(Join(p), Join(q), size * 10);
    PrefixGroups(ls, m, more);
    if m < size {
      assert q == [] && more == [];
    }
    FrontOf(p, Grouped(more), size);
  }

  lemma {:induction false} PrefixGroups(ls: seq<Listing>, m: nat, more: seq<Row>)
    requires DistinctOrders(ls) && m <= |ls| && more <= Join(ls[m..])
    ensures Grouped(Join(ls[..m]) + more) == ls[..m] + Grouped(more)
  {
    assert ls == ls[..m] + ls[m..];
    JoinApart(ls[..m], ls[m..]);
    GroupsConcat(Join(ls[..m]), more);
    GroupingUndoesJoin(ls[..m]);
  }

  /** A page that is right has room for its rows. */
  lemma {:induction false} RightPageFits(rows: seq<Row>, size: nat, p: seq<Listing>)
    requires var g := Grouped(rows); g[..Min(size, |g|)] == p
    ensures RowCount(p) <= |rows|
  {
    var g := Grouped(rows);
    GroupsNeedNoMoreRows(rows);
    RowCountGrows(g, Min(size, |g|));
  }

  /** If the skipped orders take more rows than the offset, the rows sent start with one of them. */
  lemma {:induction false} StartsTooEarly(orders: seq<Listing>, offset: nat, limit: nat) returns (j: nat)
    requires RowsBefore(orders, offset) > offset && limit >= 1
    ensures j < Min(offset, |orders|)
    ensures var rows := Slice(Join(orders), offset, limit); rows != [] && rows[0].head == orders[j].head
  {
    JoinSplit(orders, Min(offset, |orders|));
    j := JoinRowsFrom(orders[..Min(offset, |orders|)], offset);
  }

  /** Then the page starts with an order that should have been skipped, or is not empty when it should be. */
  lemma {:induction false} WrongStart(orders: seq<Listing>, offset: nat, size: nat)
    requires size >= 1 && DistinctOrders(orders)
    requires RowsBefore(orders, offset) > offset
    ensures JoinFrom(orders, offset, size) != Slice(orders, offset, size)
  {
    var j := StartsTooEarly(orders, offset, size * 10);
    FirstGroup(Slice(Join(orders), offset, size * 10));
    if offset < |orders| {
      assert Slice(orders, offset, size)[0] == orders[offset];
      assert orders[j].head.id != orders[offset].head.id;
    }
  }

  lemma {:induction false} FirstGroup(rows: seq<Row>)
    requires rows != []
    ensures |Grouped(rows)| >= 1 && Grouped(rows)[0].head == rows[0].head
  {
    GroupsInOrderOfAppearance(rows);
    var g := Grouped(rows);
    assert Appears(rows, rows[0].head.id);
    var k :| 0 <= k < |g| && g[k].head.id == rows[0].head.id;
    assert FirstRow(rows, g[k].head.id) == 0;
  }

  /** The page is right if and only if the skipped orders take no more rows than the offset counts orders, and the
      rows of the page's own orders fit the limit of ten an order. */
  lemma {:induction false} JoinPageIsPlainPageIff(orders: seq<Listing>, page: nat, size: nat)
    requires page >= 1 && size >= 1 && DistinctOrders(orders)
    ensures JoinPage(orders, page, size) == PlainPage(orders, page, size) <==>
      && RowsBefore(orders, (page - 1) * size) <= (page - 1) * size
      && RowCount(PlainPage(orders, page, size)) <= size * 10
  {
    JoinFromIsSliceIff(orders, (page - 1) * size, size);
  }

  lemma {:induction false} JoinFromIsSliceIff(orders: seq<Listing>, offset: nat, size: nat)
    requires size >= 1 && DistinctOrders(orders)
    ensures JoinFrom(orders, offset, size) == Slice(orders, offset, size) <==>
            RowsBefore(orders, offset) <= offset && RowCount(Slice(orders, offset, size)) <= size * 10
  {
    var k := Min(offset, |orders|);
    if RowsBefore(orders, offset) > offset {
      WrongStart(orders, offset, size);
    } else {
      OffsetSkipsOrders(orders, offset, size * 10);
      var ls := orders[k..];
      assert Slice(orders, offset, size) == ls[..Min(size, |ls|)];
      if RowCount(Slice(orders, offset, size)) <= size * 10 {
        PageOfPrefix(ls, size);
      } else if JoinFrom(orders, offset, size) == Slice(orders, offset, size) {
        RightPageFits(Slice(Join(orders), offset, size * 10), size, Slice(orders, offset, size));
      }
    }
  }

  ghost predicate AtMost(orders: seq<Listing>, n: nat) {
    forall k :: 0 <= k < |orders| ==> |orders[k].items| <= n
  }

  lemma {:induction false} RowCountBound(orders: seq<Listing>, n: nat)
    requires AtMost(orders, n) && n >= 1
    ensures RowCount(orders) <= n * |orders|
  {
    if orders != [] {
      RowCountBound(orders[..|orders| - 1], n);
    }
  }

  lemma {:induction false} SmallOrdersFit(orders: seq<Listing>, offset: nat, size: nat)
    requires AtMost(orders, 10)
    ensures RowCount(Slice(orders, offset, size)) <= size * 10
  {
    RowCountBound(Slice(orders, offset, size), 10);
  }

  lemma {:induction false} SkippedRowsIff(orders: seq<Listing>, offset: nat)
    requires offset <= |orders|
    ensures RowsBefore(orders, offset) <= offset <==> AtMost(orders[..offset], 1)
  {
    OneRowEach(orders[..offset]);
  }

  /** Orders of at most ten items: the first page is always right, and a later page that skips existing orders is
      right if and only if each of them has at most one item. */
  lemma {:induction false} PagesOfSmallOrders(orders: seq<Listing>, page: nat, size: nat)
    requires page >= 1 && size >= 1 && DistinctOrders(orders) && AtMost(orders, 10)
    ensures page == 1 ==> JoinPage(orders, page, size) == PlainPage(orders, page, size)
    ensures (page - 1) * size <= |orders| ==>
      (JoinPage(orders, page, size) == PlainPage(orders, page, size) <==> AtMost(orders[..(page - 1) * size], 1))
  {
    var offset := (page - 1) * size;
    JoinPageIsPlainPageIff(orders, page, size);
    SmallOrdersFit(orders, offset, size);
    if offset <= |orders| {
      SkippedRowsIff(orders, offset);
    }
  }

  lemma {:induction false} OneRowEach(orders: seq<Listing>)
    ensures RowCount(orders) <= |orders| <==> AtMost(orders, 1)
  {
    if AtMost(orders, 1) {
      RowCountBound(orders, 1);
    } else {
      var k :| 0 <= k < |orders| && |orders[k].items| > 1;
      RowCountGrows(orders, k);
      RowCountGrows(orders, k + 1);
      SumAppend(orders[..k], orders[k], LineCount());
      assert orders[..k + 1] == orders[..k] + [orders[k]];
    }
  }
}
