/** The cache-aside repository in front of the product table, against the table itself. */
module ProductCache {
  import opened Common
  import opened Int32
  import opened ProductDb
  import opened CacheKeys

  // ----- The product table -----

  /** What a product edit may change; the columns of text are treated alike. */
  datatype Details = Details(name: string, price: int)

  datatype Product = Product(id: ProductId, details: Details, stock: int, createdAt: nat, updatedAt: nat)

  /** `order` lists the ids newest first, as `ORDER BY created_at DESC` does. Transactions have distinct times. */
  datatype Db = Db(rows: map<ProductId, Product>, order: seq<ProductId>, now: nat)

  ghost predicate AllIn(ids: seq<ProductId>, rows: map<ProductId, Product>) {
    forall k :: 0 <= k < |ids| ==> ids[k] in rows
  }

  ghost predicate DbOk(db: Db) {
    && AllIn(db.order, db.rows)
    && (forall id :: id in db.rows ==>
          && id in db.order && db.rows[id].id == id && 0 <= db.rows[id].stock <= MAX
          && db.rows[id].createdAt < db.now && db.rows[id].updatedAt < db.now)
    && (forall j, k :: 0 <= j < k < |db.order| ==>
          db.rows[db.order[j]].createdAt > db.rows[db.order[k]].createdAt)
  }

  function Stocks(db: Db): StockTable {
    map id | id in db.rows :: db.rows[id].stock
  }

  /** The rows of the given ids, in that order. */
  function Pick(rows: map<ProductId, Product>, ids: seq<ProductId>): seq<Product> {
    if ids == [] then []
    else (if ids[0] in rows then [rows[ids[0]]] else []) + Pick(rows, ids[1..])
  }

  /** LIMIT and OFFSET over the ordered table. */
  function PageIds(order: seq<ProductId>, limit: nat, offset: nat): seq<ProductId> {
    var lo := Min(offset, |order|);
    order[lo..Min(lo + limit, |order|)]
  }

  function PageOf(db: Db, limit: nat, offset: nat): seq<Product> {
    Pick(db.rows, PageIds(db.order, limit, offset))
  }

  // ----- Operations -----

  datatype Op =
    | Get(id: ProductId)
    | List(limit: int, offset: int)
    | Create(id: ProductId, details: Details, stock: int)
    | Update(id: ProductId, details: Details)
    | SetStock(id: ProductId, stock: int)
    | AddStock(id: ProductId, delta: int, fault: Fault)
    | Expire(key: string)

  datatype Reply =
    | Found(product: Product)
    | Page(products: seq<Product>)
    | StockRow(id: ProductId, stock: int, updatedAt: nat)
    | NotFound
    | Refused
    | Failed
    | NoReply

  predicate Writes(op: Op) {
    op.Create? || op.Update? || op.SetStock? || op.AddStock?
  }

  function PutStock(db: Db, id: ProductId, stock: int): Db
    requires id in db.rows
  {
    Db(db.rows[id := db.rows[id].(stock := stock, updatedAt := db.now)], db.order, db.now + 1)
  }

  /** The plain repository: every call goes to the table. */
  function DbStep(db: Db, op: Op): (Db, Reply) {
    match op
    case Get(id) =>
      (db, if id in db.rows then Found(db.rows[id]) else NotFound)
    case List(limit, offset) =>
      (db, if limit < 0 || offset < 0 then Failed else Page(PageOf(db, limit, offset)))
    case Create(id, details, stock) =>
      if id in db.rows || details.price < 0 || !(0 <= stock <= MAX) then (db, Failed)
      else
        var p := Product(id, details, stock, db.now, db.now);
        (Db(db.rows[id := p], [id] + db.order, db.now + 1), Found(p))
    case Update(id, details) =>
      if id !in db.rows then (db, NotFound)
      else if details.price < 0 then (db, Failed)
      else
        var p := db.rows[id].(details := details, updatedAt := db.now);
        (Db(db.rows[id := p], db.order, db.now + 1), Found(p))
    case SetStock(id, stock) =>
      if id !in db.rows then (db, NotFound)
      else if !(0 <= stock <= MAX) then (db, Failed)
      else (PutStock(db, id, stock), StockRow(id, stock, db.now))
    case AddStock(id, delta, fault) =>
      (match LockedUpdate(Stocks(db), id, delta, fault).1
       case Updated(n) => if id in db.rows then (PutStock(db, id, n), StockRow(id, n, db.now)) else (db, Failed)
       case NoRow => (db, NotFound)
       case Insufficient => (db, Refused)
       case DbError => (db, Failed))
    case Expire(_) =>
      (db, NoReply)
  }

  // ----- The cache -----

  /** What Redis holds: a product, a page, or the counter of a hot deal, which is not this repository's. */
  datatype Value = One(product: Product) | Many(products: seq<Product>) | Counter(n: int)

  type Cache = map<string, Value>

  datatype Repo = Repo(db: Db, cache: Cache)

  function WithoutLists(cache: Cache): Cache {
    map k | k in cache && !IsListKey(k) :: cache[k]
  }

  /** Invalidation after a successful write; stock writes leave the pages alone. */
  function Invalidated(cache: Cache, op: Op): Cache {
    match op
    case Create(_, _, _) => WithoutLists(cache)
    case Update(id, _) => WithoutLists(cache - {ProductKey(id)})
    case SetStock(id, _) => cache - {ProductKey(id)}
    case AddStock(id, _, _) => cache - {ProductKey(id)}
    case _ => cache
  }

  /** The cached repository. `up` says whether Redis answers during this call; its errors are all ignored. */
  function CachedStep(s: Repo, op: Op, up: bool): (Repo, Reply) {
    var plain := DbStep(s.db, op);
    match op
    case Get(id) =>
      var key := ProductKey(id);
      if up && key in s.cache && s.cache[key].One? then (s, Found(s.cache[key].product))
      else (if up && plain.1.Found? then s.(cache := s.cache[key := One(plain.1.product)]) else s, plain.1)
    case List(limit, offset) =>
      var key := ListKey(limit, offset);
      if up && key in s.cache && s.cache[key].Many? then (s, Page(s.cache[key].products))
      else (if up && plain.1.Page? then s.(cache := s.cache[key := Many(plain.1.products)]) else s, plain.1)
    case Expire(key) =>
      (if key in s.cache && !s.cache[key].Counter? then s.(cache := s.cache - {key}) else s, plain.1)
    case _ =>
      if plain.1.Found? || plain.1.StockRow? then
        (Repo(plain.0, if up then Invalidated(s.cache, op) else s.cache), plain.1)
      else
        (s, plain.1)
  }

  // ----- Coherence -----

  /** All of a product but its stock and its time of change. */
  function Listed(p: Product): (ProductId, Details, nat) {
    (p.id, p.details, p.createdAt)
  }

  ghost predicate SamePage(ps: seq<Product>, qs: seq<Product>) {
    |ps| == |qs| && forall k :: 0 <= k < |ps| ==> Listed(ps[k]) == Listed(qs[k])
  }

  ghost predicate ProductExact(s: Repo, id: ProductId) {
    ProductKey(id) in s.cache ==> id in s.db.rows && s.cache[ProductKey(id)] == One(s.db.rows[id])
  }

  /** Every cached product is the row. */
  ghost predicate ProductsExact(s: Repo) {
    forall id :: ProductExact(s, id)
  }

  ghost predicate PageAgrees(s: Repo, limit: int, offset: int) {
    ListKey(limit, offset) in s.cache ==>
      && limit >= 0 && offset >= 0
      && s.cache[ListKey(limit, offset)].Many?
      && SamePage(s.cache[ListKey(limit, offset)].products, PageOf(s.db, limit, offset))
  }

  /** Every cached page shows the right products in the right order with the right details. */
  ghost predicate PagesAgree(s: Repo) {
    forall limit, offset :: PageAgrees(s, limit, offset)
  }

  ghost predicate Coherent(s: Repo) {
    DbOk(s.db) && ProductsExact(s) && PagesAgree(s)
  }

  /** A page may show old stock; everything else is the same. */
  ghost predicate Agrees(cached: Reply, plain: Reply) {
    if cached.Page? && plain.Page? then SamePage(cached.products, plain.products) else cached == plain
  }

  // ----- The table keeps its order -----

  lemma {:induction false} PickRows(rows: map<ProductId, Product>, ids: seq<ProductId>)
    requires AllIn(ids, rows)
    ensures |Pick(rows, ids)| == |ids|
    ensures forall k :: 0 <= k < |ids| ==> Pick(rows, ids)[k] == rows[ids[k]]
  {
    if ids != [] {
      PickRows(rows, ids[1..]);
    }
  }

  /** A page is what OFFSET and LIMIT mean: all rows from the offset on, up to the limit. */
  lemma {:induction false} PageIsTheSlice(db: Db, limit: nat, offset: nat)
    requires AllIn(db.order, db.rows)
    ensures var ps := PageOf(db, limit, offset);
            && |ps| == Min(limit, |db.order| - Min(offset, |db.order|))
            && (forall k :: 0 <= k < |ps| ==> ps[k] == db.rows[db.order[offset + k]])
  {
    PickRows(db.rows, PageIds(db.order, limit, offset));
  }

  /** And ORDER BY: newest first. */
  lemma {:induction false} PageIsSorted(db: Db, limit: nat, offset: nat)
    requires DbOk(db)
    ensures var ps := PageOf(db, limit, offset);
            forall j, k :: 0 <= j < k < |ps| ==> ps[j].createdAt > ps[k].createdAt
  {
    PageIsTheSlice(db, limit, offset);
  }

  /** Changing details, stock and time of change of one row. */
  lemma {:induction false} RewriteKeepsDb(db: Db, p: Product)
    requires DbOk(db) && p.id in db.rows && p.createdAt == db.rows[p.id].createdAt
    requires 0 <= p.stock <= MAX && p.updatedAt == db.now
    ensures DbOk(Db(db.rows[p.id := p], db.order, db.now + 1))
  {
  }

  lemma {:induction false} CreateKeepsDb(db: Db, p: Product)
    requires DbOk(db) && p.id !in db.rows && p.createdAt == p.updatedAt == db.now && 0 <= p.stock <= MAX
    ensures DbOk(Db(db.rows[p.id := p], [p.id] + db.order, db.now + 1))
  {
  }

  lemma {:induction false} DbStepKeepsDb(db: Db, op: Op)
    requires DbOk(db) && (op.AddStock? ==> InRange(op.delta))
    ensures DbOk(DbStep(db, op).0)
  {
    var r := DbStep(db, op).1;
    match op
    case Create(id, details, stock) =>
      if r.Found? {
        CreateKeepsDb(db, r.product);
      }
    case Update(id, details) =>
      if r.Found? {
        RewriteKeepsDb(db, r.product);
      }
    case SetStock(id, stock) =>
      if r.StockRow? {
        RewriteKeepsDb(db, db.rows[id].(stock := stock, updatedAt := db.now));
      }
    case AddStock(id, delta, fault) =>
      LockedUpdateIsExact(Stocks(db), id, delta, fault);
      if r.StockRow? {
        RewriteKeepsDb(db, db.rows[id].(stock := r.stock, updatedAt := db.now));
      }
    case _ =>
  }

  function Restocked(p: Product, id: ProductId, stock: int, now: nat): Product {
    if p.id == id then p.(stock := stock, updatedAt := now) else p
  }

  lemma {:induction false} PickRestocked(rows: map<ProductId, Product>, ids: seq<ProductId>, p: Product)
    requires forall k :: 0 <= k < |ids| ==> ids[k] in rows && rows[ids[k]].id == ids[k]
    ensures var ps, qs := Pick(rows, ids), Pick(rows[p.id := p], ids);
            && |ps| == |qs| == |ids|
            && (forall k :: 0 <= k < |ps| ==>
                  ps[k] == rows[ids[k]] && qs[k] == if ps[k].id == p.id then p else ps[k])
  {
    PickRows(rows, ids);
    PickRows(rows[p.id := p], ids);
  }

  lemma {:induction false} PageIdsKnown(db: Db, limit: nat, offset: nat)
    requires DbOk(db)
    ensures var ids := PageIds(db.order, limit, offset);
            forall k :: 0 <= k < |ids| ==>
              ids[k] in db.rows && db.rows[ids[k]].id == ids[k] && db.rows[ids[k]].updatedAt < db.now
  {
  }

  /** A stock write shows on a page in its own product only. */
  lemma {:induction false} StockWriteOnPage(db: Db, id: ProductId, stock: int, limit: nat, offset: nat)
    requires DbOk(db) && id in db.rows && 0 <= stock <= MAX
    ensures var ps, qs := PageOf(db, limit, offset), PageOf(PutStock(db, id, stock), limit, offset);
            && |ps| == |qs|
            && (forall k :: 0 <= k < |ps| ==> ps[k].updatedAt < db.now && qs[k] == Restocked(ps[k], id, stock, db.now))
  {
    PageIdsKnown(db, limit, offset);
    PickRestocked(db.rows, PageIds(db.order, limit, offset), db.rows[id].(stock := stock, updatedAt := db.now));
  }

  // ----- One call -----

  /** Caching the row under its own key. */
  lemma {:induction false} GetKeeps(s: Repo, id: ProductId, up: bool)
    requires Coherent(s)
    ensures var r := CachedStep(s, Get(id), up); Coherent(r.0) && r.1 == DbStep(s.db, Get(id)).1
  {
    assert ProductExact(s, id);
    var s' := CachedStep(s, Get(id), up).0;
    forall id' ensures ProductExact(s', id') {
      assert ProductExact(s, id');
      ProductKeyInjective(id, id');
    }
    forall limit, offset ensures PageAgrees(s', limit, offset) {
      assert PageAgrees(s, limit, offset);
      KeySpacesApart(id, id, limit, offset);
    }
  }

  lemma {:induction false} ListKeeps(s: Repo, limit: int, offset: int, up: bool)
    requires Coherent(s)
    ensures var r := CachedStep(s, List(limit, offset), up);
            Coherent(r.0) && Agrees(r.1, DbStep(s.db, List(limit, offset)).1)
  {
    assert PageAgrees(s, limit, offset);
    if limit >= 0 && offset >= 0 {
      CachePageKeeps(s, limit, offset);
    }
  }

  /** Caching a page under its own key. */
  lemma {:induction false} CachePageKeeps(s: Repo, limit: nat, offset: nat)
    requires Coherent(s)
    ensures Coherent(s.(cache := s.cache[ListKey(limit, offset) := Many(PageOf(s.db, limit, offset))]))
  {
    var s' := s.(cache := s.cache[ListKey(limit, offset) := Many(PageOf(s.db, limit, offset))]);
    forall id ensures ProductExact(s', id) {
      assert ProductExact(s, id);
      KeySpacesApart(id, id, limit, offset);
    }
    forall l, o ensures PageAgrees(s', l, o) {
      assert PageAgrees(s, l, o);
      ListKeyInjective(limit, offset, l, o);
    }
  }

  lemma {:induction false} StockWriteKeepsPages(s: Repo, id: ProductId, stock: int)
    requires DbOk(s.db) && PagesAgree(s) && id in s.db.rows && 0 <= stock <= MAX
    ensures PagesAgree(Repo(PutStock(s.db, id, stock), s.cache - {ProductKey(id)}))
  {
    var s' := Repo(PutStock(s.db, id, stock), s.cache - {ProductKey(id)});
    forall limit, offset ensures PageAgrees(s', limit, offset) {
      assert PageAgrees(s, limit, offset);
      if limit >= 0 && offset >= 0 {
        StockWriteOnPage(s.db, id, stock, limit, offset);
      }
    }
  }

  lemma {:induction false} StockWriteKeepsProducts(s: Repo, id: ProductId, stock: int)
    requires ProductsExact(s) && id in s.db.rows
    ensures ProductsExact(Repo(PutStock(s.db, id, stock), s.cache - {ProductKey(id)}))
  {
    forall id' ensures ProductExact(Repo(PutStock(s.db, id, stock), s.cache - {ProductKey(id)}), id') {
      assert ProductExact(s, id');
    }
  }

  /** Writes of a row's stock, however they come about. */
  lemma {:induction false} StockWriteKeeps(s: Repo, id: ProductId, stock: int)
    requires Coherent(s) && id in s.db.rows && 0 <= stock <= MAX
    ensures Coherent(Repo(PutStock(s.db, id, stock), s.cache - {ProductKey(id)}))
  {
    DbStepKeepsDb(s.db, SetStock(id, stock));
    StockWriteKeepsPages(s, id, stock);
    StockWriteKeepsProducts(s, id, stock);
  }

  lemma {:induction false} SetStockKeeps(s: Repo, id: ProductId, stock: int)
    requires Coherent(s)
    ensures var r := CachedStep(s, SetStock(id, stock), true);
            Coherent(r.0) && r.0.db == DbStep(s.db, SetStock(id, stock)).0
  {
    if id in s.db.rows && 0 <= stock <= MAX {
      StockWriteKeeps(s, id, stock);
    }
  }

  lemma {:induction false} AddStockKeeps(s: Repo, id: ProductId, delta: int, fault: Fault)
    requires Coherent(s) && InRange(delta)
    ensures var r := CachedStep(s, AddStock(id, delta, fault), true);
            Coherent(r.0) && r.0.db == DbStep(s.db, AddStock(id, delta, fault)).0
  {
    LockedUpdateIsExact(Stocks(s.db), id, delta, fault);
    var r := LockedUpdate(Stocks(s.db), id, delta, fault).1;
    if r.Updated? {
      StockWriteKeeps(s, id, r.stock);
    }
  }

  lemma {:induction false} NoListsLeft(cache: Cache)
    ensures forall limit, offset :: ListKey(limit, offset) !in WithoutLists(cache)
  {
    forall limit, offset ensures ListKey(limit, offset) !in WithoutLists(cache) {
      KeySpacesApart(0, 0, limit, offset);
    }
  }

  /** Writes that may change pages leave no page cached. */
  lemma {:induction false} CreateKeeps(s: Repo, op: Op)
    requires Coherent(s) && op.Create?
    ensures Coherent(CachedStep(s, op, true).0)
  {
    var s' := CachedStep(s, op, true).0;
    DbStepKeepsDb(s.db, op);
    if DbStep(s.db, op).1.Found? {
      NoListsLeft(s.cache);
      forall id ensures ProductExact(s', id) {
        assert ProductExact(s, id);
      }
    }
  }

  lemma {:induction false} UpdateKeeps(s: Repo, op: Op)
    requires Coherent(s) && op.Update?
    ensures Coherent(CachedStep(s, op, true).0)
  {
    var s' := CachedStep(s, op, true).0;
    DbStepKeepsDb(s.db, op);
    if DbStep(s.db, op).1.Found? {
      NoListsLeft(s.cache - {ProductKey(op.id)});
      forall id ensures ProductExact(s', id) {
        assert ProductExact(s, id);
        ProductKeyInjective(op.id, id);
      }
    }
  }

  lemma {:induction false} ExpireKeeps(s: Repo, key: string)
    requires Coherent(s)
    ensures Coherent(CachedStep(s, Expire(key), true).0)
  {
    var s' := CachedStep(s, Expire(key), true).0;
    forall id ensures ProductExact(s', id) {
      assert ProductExact(s, id);
    }
    forall limit, offset ensures PageAgrees(s', limit, offset) {
      assert PageAgrees(s, limit, offset);
    }
  }

  lemma {:induction false} CallRefines(s: Repo, op: Op, up: bool)
    requires Coherent(s) && (Writes(op) ==> up) && (op.AddStock? ==> InRange(op.delta))
    ensures Coherent(CachedStep(s, op, up).0)
    ensures CachedStep(s, op, up).0.db == DbStep(s.db, op).0
    ensures Agrees(CachedStep(s, op, up).1, DbStep(s.db, op).1)
  {
    match op
    case Get(id) => GetKeeps(s, id, up);
    case List(limit, offset) => ListKeeps(s, limit, offset, up);
    case Create(_, _, _) => CreateKeeps(s, op);
    case Update(_, _) => UpdateKeeps(s, op);
    case SetStock(id, stock) => SetStockKeeps(s, id, stock);
    case AddStock(id, delta, fault) => AddStockKeeps(s, id, delta, fault);
    case Expire(key) => ExpireKeeps(s, key);
  }

  // ----- Runs -----

  datatype Turn = Turn(op: Op, up: bool)

  function CachedRun(s: Repo, turns: seq<Turn>): (Repo, seq<Reply>) {
    if turns == [] then (s, [])
    else
      var r := CachedRun(s, turns[..|turns| - 1]);
      var t := turns[|turns| - 1];
      (CachedStep(r.0, t.op, t.up).0, r.1 + [CachedStep(r.0, t.op, t.up).1])
  }

  function DbRun(db: Db, turns: seq<Turn>): (Db, seq<Reply>) {
    if turns == [] then (db, [])
    else
      var r := DbRun(db, turns[..|turns| - 1]);
      var t := turns[|turns| - 1];
      (DbStep(r.0, t.op).0, r.1 + [DbStep(r.0, t.op).1])
  }

  /** Redis answers during every write; reads may find it down, and entries may expire at any time. */
  ghost predicate WritesReachRedis(turns: seq<Turn>) {
    forall k :: 0 <= k < |turns| ==>
      (Writes(turns[k].op) ==> turns[k].up) && (turns[k].op.AddStock? ==> InRange(turns[k].op.delta))
  }

  /** Reply by reply, equal but for the stock and time of change shown on pages. */
  ghost predicate RepliesAgree(turns: seq<Turn>, cached: seq<Reply>, plain: seq<Reply>) {
    && |cached| == |plain| == |turns|
    && forall k :: 0 <= k < |turns| ==>
         Agrees(cached[k], plain[k]) && (turns[k].op.List? || cached[k] == plain[k])
  }

  /** In every sequential run the cached repository answers as the plain one, except that a page may show old stock;
      and both leave the same table. Every cached product is its row at every moment. */
  lemma {:induction false} CacheRefinesDb(s: Repo, turns: seq<Turn>)
    requires Coherent(s) && WritesReachRedis(turns)
    ensures Coherent(CachedRun(s, turns).0)
    ensures CachedRun(s, turns).0.db == DbRun(s.db, turns).0
    ensures RepliesAgree(turns, CachedRun(s, turns).1, DbRun(s.db, turns).1)
    decreases |turns|
  {
    if turns != [] {
      var n := |turns| - 1;
      var before, t := turns[..n], turns[n];
      CacheRefinesDb(s, before);
      var c, d := CachedRun(s, before), DbRun(s.db, before);
      CallRefines(c.0, t.op, t.up);
      OnlyListsPage(d.0, t.op);
      MoreReplies(before, t, c.1, d.1, CachedStep(c.0, t.op, t.up).1, DbStep(d.0, t.op).1);
      assert turns == before + [t];
    }
  }

  lemma {:induction false} MoreReplies(turns: seq<Turn>, t: Turn, cs: seq<Reply>, ds: seq<Reply>, c: Reply, d: Reply)
    requires RepliesAgree(turns, cs, ds) && Agrees(c, d) && (t.op.List? || c == d)
    ensures RepliesAgree(turns + [t], cs + [c], ds + [d])
  {
  }

  lemma {:induction false} OnlyListsPage(db: Db, op: Op)
    ensures DbStep(db, op).1.Page? ==> op.List?
  {
  }

  // ----- What callers see of writes -----

  /** When the plain repository takes a write; otherwise it changes nothing. */
  lemma {:induction false} WriteTakenIff(db: Db, op: Op)
    requires DbOk(db) && Writes(op) && (op.AddStock? ==> InRange(op.delta))
    ensures var (db', r) := DbStep(db, op);
            var taken := r.Found? || r.StockRow?;
            && (taken <==>
                match op
                case Create(id, details, stock) => id !in db.rows && details.price >= 0 && 0 <= stock <= MAX
                case Update(id, details) => id in db.rows && details.price >= 0
                case SetStock(id, stock) => id in db.rows && 0 <= stock <= MAX
                case AddStock(id, delta, fault) =>
                  fault.NoFault? && id in db.rows && 0 <= db.rows[id].stock + delta <= MAX
                case _ => false)
            && (!taken ==> db' == db)
            && (r.NotFound? <==> !op.Create? && op.id !in db.rows && (op.AddStock? ==> !op.fault.BeginFails?))
            && (r.Refused? <==> && op.AddStock? && !op.fault.BeginFails? && op.id in db.rows
                                && !(0 <= db.rows[op.id].stock + op.delta <= MAX))
  {
    if op.AddStock? {
      LockedUpdateIsExact(Stocks(db), op.id, op.delta, op.fault);
    }
  }

  /** What a product is after a write that was taken. */
  ghost predicate WrittenBy(db: Db, op: Op, p: Product) {
    match op
    case Create(id, details, stock) => p == Product(id, details, stock, db.now, db.now)
    case Update(id, details) => id in db.rows && p == db.rows[id].(details := details, updatedAt := db.now)
    case SetStock(id, stock) => id in db.rows && p == db.rows[id].(stock := stock, updatedAt := db.now)
    case AddStock(id, delta, _) =>
      id in db.rows && p == db.rows[id].(stock := db.rows[id].stock + delta, updatedAt := db.now)
    case _ => false
  }

  lemma {:induction false} RowAfterWrite(db: Db, op: Op)
    requires DbOk(db) && Writes(op) && (op.AddStock? ==> InRange(op.delta))
    requires DbStep(db, op).1.Found? || DbStep(db, op).1.StockRow?
    ensures var (db', r) := DbStep(db, op);
            && op.id in db'.rows && WrittenBy(db, op, db'.rows[op.id])
            && (r.Found? ==> r.product == db'.rows[op.id])
            && (r.StockRow? ==> r == StockRow(op.id, db'.rows[op.id].stock, db'.rows[op.id].updatedAt))
            && (forall id :: id in db.rows && id != op.id ==> id in db'.rows && db'.rows[id] == db.rows[id])
            && (forall id :: id in db'.rows && id != op.id ==> id in db.rows)
            && db'.order == (if op.Create? then [op.id] else []) + db.order
  {
    if op.AddStock? {
      LockedUpdateIsExact(Stocks(db), op.id, op.delta, op.fault);
    }
  }

  /** Callers of the cached repository read their writes: a product read after a write that was taken is what the write
      made of it, also when it was cached before, and every other product is what it was. */
  lemma {:induction false} ReadsFollowWrites(s: Repo, op: Op, up: bool, id: ProductId)
    requires Coherent(s) && Writes(op) && (op.AddStock? ==> InRange(op.delta))
    requires CachedStep(s, op, true).1.Found? || CachedStep(s, op, true).1.StockRow?
    ensures var read := CachedStep(CachedStep(s, op, true).0, Get(id), up).1;
            if id == op.id then read.Found? && WrittenBy(s.db, op, read.product)
            else read == CachedStep(s, Get(id), up).1
  {
    CallRefines(s, op, true);
    OnlyListsPage(s.db, op);
    RowAfterWrite(s.db, op);
    CallRefines(CachedStep(s, op, true).0, Get(id), up);
    CallRefines(s, Get(id), up);
  }

  /** The first page read after a creation starts with the new product. */
  lemma {:induction false} NewProductIsListedFirst(s: Repo, op: Op, limit: nat, up: bool)
    requires Coherent(s) && op.Create? && CachedStep(s, op, true).1.Found? && limit >= 1
    ensures var read := CachedStep(CachedStep(s, op, true).0, List(limit, 0), up).1;
            read.Page? && read.products != [] && Listed(read.products[0]) == (op.id, op.details, s.db.now)
  {
    CallRefines(s, op, true);
    RowAfterWrite(s.db, op);
    var s' := CachedStep(s, op, true).0;
    CallRefines(s', List(limit, 0), up);
    PageIsTheSlice(s'.db, limit, 0);
  }

  /** A second read is served from the cache: whatever becomes of the table meanwhile, it gets the first answer as long
      as Redis answers and the entry stays, and the table's own when Redis is down. */
  lemma {:induction false} SecondReadIsCached(s: Repo, op: Op, db': Db)
    requires op.Get? || op.List?
    requires CachedStep(s, op, true).1.Found? || CachedStep(s, op, true).1.Page?
    ensures var first := CachedStep(s, op, true);
            && CachedStep(first.0.(db := db'), op, true).1 == first.1
            && CachedStep(first.0.(db := db'), op, false).1 == DbStep(db', op).1
  {
  }

  // ----- Where agreement ends -----

  /** A write whose invalidation does not reach Redis leaves the products exact if and only if the product was not
      cached. */
  lemma {:induction false} LostInvalidationIff(s: Repo, op: Op)
    requires Coherent(s) && (op.Update? || op.SetStock? || op.AddStock?)
    requires DbStep(s.db, op).1.Found? || DbStep(s.db, op).1.StockRow?
    ensures ProductsExact(CachedStep(s, op, false).0) <==> ProductKey(op.id) !in s.cache
  {
    var s' := CachedStep(s, op, false).0;
    assert ProductExact(s, op.id);
    if ProductKey(op.id) in s.cache {
      assert s'.db.rows[op.id].updatedAt == s.db.now > s.db.rows[op.id].updatedAt;
      assert !ProductExact(s', op.id);
    } else {
      forall id ensures ProductExact(s', id) {
        assert ProductExact(s, id);
      }
    }
  }

  lemma {:induction false} SamePageJoins(ps: seq<Product>, qs: seq<Product>, rs: seq<Product>)
    requires SamePage(ps, qs)
    ensures SamePage(ps, rs) <==> SamePage(qs, rs)
  {
  }

  /** A creation moves every page but the empty ones past the end. */
  lemma {:induction false} CreateKeepsPageIff(db: Db, p: Product, limit: nat, offset: nat)
    requires DbOk(db) && p.id !in db.rows
    ensures SamePage(PageOf(db, limit, offset),
                     PageOf(Db(db.rows[p.id := p], [p.id] + db.order, db.now + 1), limit, offset))
       <==> limit == 0 || offset > |db.order|
  {
    var db' := Db(db.rows[p.id := p], [p.id] + db.order, db.now + 1);
    forall k | 0 <= k < |db'.order| ensures db'.order[k] in db'.rows {
      assert k > 0 ==> db'.order[k] == db.order[k - 1];
    }
    PageIsTheSlice(db, limit, offset);
    PageIsTheSlice(db', limit, offset);
    if limit >= 1 && offset < |db.order| {
      var ps, qs := PageOf(db, limit, offset), PageOf(db', limit, offset);
      assert ps[0] == db.rows[db.order[offset]] && qs[0] == db'.rows[db'.order[offset]];
      if offset == 0 {
        assert qs[0] == p;
      } else {
        assert db'.order[offset] == db.order[offset - 1];
        assert db.rows[db.order[offset - 1]].createdAt > db.rows[db.order[offset]].createdAt;
      }
    }
  }

  /** A creation whose page scan does not reach Redis leaves the pages right if and only if every cached one is empty
      and stays so. */
  lemma {:induction false} LostScanAfterCreateIff(s: Repo, op: Op)
    requires Coherent(s) && op.Create? && DbStep(s.db, op).1.Found?
    ensures PagesAgree(CachedStep(s, op, false).0) <==>
            forall limit, offset :: ListKey(limit, offset) in s.cache ==> limit == 0 || offset > |s.db.order|
  {
    var s' := CachedStep(s, op, false).0;
    forall limit, offset
      ensures PageAgrees(s', limit, offset) <==>
              (ListKey(limit, offset) in s.cache ==> limit == 0 || offset > |s.db.order|)
    {
      assert PageAgrees(s, limit, offset);
      if ListKey(limit, offset) in s.cache {
        CreateKeepsPageIff(s.db, DbStep(s.db, op).1.product, limit, offset);
        SamePageJoins(s.cache[ListKey(limit, offset)].products, PageOf(s.db, limit, offset),
                      PageOf(s'.db, limit, offset));
      }
    }
  }

  predicate OnPage(ps: seq<Product>, id: ProductId) {
    exists k :: 0 <= k < |ps| && ps[k].id == id
  }

  /** An edit shows on a page if and only if it changes details and the product is on it. */
  lemma {:induction false} UpdateKeepsPageIff(db: Db, id: ProductId, details: Details, limit: nat, offset: nat)
    requires DbOk(db) && id in db.rows
    ensures var p := db.rows[id].(details := details, updatedAt := db.now);
            (SamePage(PageOf(db, limit, offset), PageOf(Db(db.rows[id := p], db.order, db.now + 1), limit, offset))
             <==> details == db.rows[id].details || !OnPage(PageOf(db, limit, offset), id))
  {
    var p := db.rows[id].(details := details, updatedAt := db.now);
    PageIdsKnown(db, limit, offset);
    PickRestocked(db.rows, PageIds(db.order, limit, offset), p);
    var ps, qs := PageOf(db, limit, offset), PageOf(Db(db.rows[id := p], db.order, db.now + 1), limit, offset);
    if details != db.rows[id].details && OnPage(ps, id) {
      var k :| 0 <= k < |ps| && ps[k].id == id;
      assert Listed(ps[k]) != Listed(qs[k]);
    }
  }

  /** An edit whose page scan does not reach Redis leaves the pages right if and only if it changes no details, or the
      product is on no cached page. */
  lemma {:induction false} LostScanAfterUpdateIff(s: Repo, op: Op)
    requires Coherent(s) && op.Update? && DbStep(s.db, op).1.Found?
    ensures PagesAgree(CachedStep(s, op, false).0) <==>
            (|| op.details == s.db.rows[op.id].details
             || forall limit: nat, offset: nat :: ListKey(limit, offset) in s.cache ==>
                  !OnPage(PageOf(s.db, limit, offset), op.id))
  {
    var s' := CachedStep(s, op, false).0;
    forall limit, offset ensures ListKey(limit, offset) in s.cache ==> limit >= 0 && offset >= 0 {
      assert PageAgrees(s, limit, offset);
    }
    forall limit: nat, offset: nat
      ensures PageAgrees(s', limit, offset) <==>
              (ListKey(limit, offset) in s.cache ==>
               op.details == s.db.rows[op.id].details || !OnPage(PageOf(s.db, limit, offset), op.id))
    {
      assert PageAgrees(s, limit, offset);
      if ListKey(limit, offset) in s.cache {
        UpdateKeepsPageIff(s.db, op.id, op.details, limit, offset);
        SamePageJoins(s.cache[ListKey(limit, offset)].products, PageOf(s.db, limit, offset),
                      PageOf(s'.db, limit, offset));
      }
    }
  }

  lemma {:induction false} StockWriteChangesPageIff(db: Db, limit: nat, offset: nat, id: ProductId, stock: int)
    requires DbOk(db) && id in db.rows && 0 <= stock <= MAX
    ensures PageOf(db, limit, offset) != PageOf(PutStock(db, id, stock), limit, offset)
       <==> OnPage(PageOf(db, limit, offset), id)
  {
    StockWriteOnPage(db, id, stock, limit, offset);
    RestockingShowsIff(PageOf(db, limit, offset), PageOf(PutStock(db, id, stock), limit, offset), id, stock, db.now);
  }

  lemma {:induction false} RestockingShowsIff(ps: seq<Product>, qs: seq<Product>, id: ProductId, stock: int, now: nat)
    requires |ps| == |qs|
    requires forall k :: 0 <= k < |ps| ==> ps[k].updatedAt < now && qs[k] == Restocked(ps[k], id, stock, now)
    ensures ps != qs <==> OnPage(ps, id)
  {
  }

  lemma {:induction false} StockWriteKeepsPageEntry(s: Repo, op: Op, limit: nat, offset: nat)
    requires ListKey(limit, offset) in s.cache && DbOk(s.db) && (op.AddStock? ==> InRange(op.delta))
    requires (op.SetStock? || op.AddStock?) && DbStep(s.db, op).1.StockRow?
    ensures var s' := CachedStep(s, op, true).0;
            && op.id in s.db.rows && 0 <= DbStep(s.db, op).1.stock <= MAX
            && s'.db == PutStock(s.db, op.id, DbStep(s.db, op).1.stock)
            && ListKey(limit, offset) in s'.cache
            && s'.cache[ListKey(limit, offset)] == s.cache[ListKey(limit, offset)]
  {
    KeySpacesApart(op.id, op.id, limit, offset);
    if op.AddStock? {
      LockedUpdateIsExact(Stocks(s.db), op.id, op.delta, op.fault);
    }
  }

  /** A page read again after a stock write is the page read before; it is the table's page if and only if the
      product is not on it. */
  lemma {:induction false} PageAfterStockWriteIff(s: Repo, limit: nat, offset: nat, op: Op)
    requires Coherent(s) && ListKey(limit, offset) !in s.cache && (op.AddStock? ==> InRange(op.delta))
    requires (op.SetStock? || op.AddStock?) && DbStep(s.db, op).1.StockRow?
    ensures var s1 := CachedStep(s, List(limit, offset), true).0;
            var s2 := CachedStep(s1, op, true).0;
            var again := CachedStep(s2, List(limit, offset), true).1;
            && again == Page(PageOf(s.db, limit, offset))
            && (again == DbStep(s2.db, List(limit, offset)).1 <==> !OnPage(PageOf(s.db, limit, offset), op.id))
  {
    var s1 := CachedStep(s, List(limit, offset), true).0;
    StockWriteKeepsPageEntry(s1, op, limit, offset);
    StockWriteChangesPageIff(s.db, limit, offset, op.id, DbStep(s.db, op).1.stock);
  }

  /** The hot-deal counters in the same Redis are never touched. */
  lemma {:induction false} CountersStay(s: Repo, op: Op, up: bool, deal: ProductId)
    requires HotdealKey(deal) in s.cache ==> s.cache[HotdealKey(deal)].Counter?
    ensures var c := CachedStep(s, op, up).0.cache;
            && (HotdealKey(deal) in c <==> HotdealKey(deal) in s.cache)
            && (HotdealKey(deal) in c ==> c[HotdealKey(deal)] == s.cache[HotdealKey(deal)])
  {
    KeySpacesApart(if op.Get? || op.Update? || op.SetStock? || op.AddStock? then op.id else 0, deal,
                   if op.List? then op.limit else 0, if op.List? then op.offset else 0);
  }

  // ----- The repository object -----

  class CachedRepository {
    var db: Db
    var cache: Cache

    constructor (db: Db)
      ensures this.db == db && cache == map[]
    {
      this.db := db;
      cache := map[];
    }

    ghost function Contents(): Repo
      reads this
    {
      Repo(db, cache)
    }

    method InvalidateProduct(id: ProductId)
      modifies this`cache
      ensures cache == old(cache) - {ProductKey(id)}
    {
      cache := cache - {ProductKey(id)};
    }

    /** The scan hands out matching keys in any order; each is deleted as it comes. */
    method InvalidateProductList()
      modifies this`cache
      ensures cache == WithoutLists(old(cache))
    {
      var scan := set k | k in cache && IsListKey(k);
      while scan != {}
        invariant scan == set k | k in cache && IsListKey(k)
        invariant forall k :: k in cache <==> k in old(cache) && (IsListKey(k) ==> k in scan)
        invariant forall k :: k in cache ==> cache[k] == old(cache)[k]
        decreases |scan|
      {
        var key :| key in scan;
        cache := cache - {key};
        scan := scan - {key};
      }
    }

    method GetProductByID(id: ProductId, up: bool) returns (r: Reply)
      modifies this`cache
      ensures (Contents(), r) == CachedStep(old(Contents()), Get(id), up)
    {
      var key := ProductKey(id);
      if up && key in cache && cache[key].One? {
        return Found(cache[key].product);
      }
      r := DbStep(db, Get(id)).1;
      if up && r.Found? {
        cache := cache[key := One(r.product)];
      }
    }

    method ListProducts(limit: int, offset: int, up: bool) returns (r: Reply)
      modifies this`cache
      ensures (Contents(), r) == CachedStep(old(Contents()), List(limit, offset), up)
    {
      var key := ListKey(limit, offset);
      if up && key in cache && cache[key].Many? {
        return Page(cache[key].products);
      }
      r := DbStep(db, List(limit, offset)).1;
      if up && r.Page? {
        cache := cache[key := Many(r.products)];
      }
    }

    method CreateProduct(id: ProductId, details: Details, stock: int, up: bool) returns (r: Reply)
      modifies this
      ensures (Contents(), r) == CachedStep(old(Contents()), Create(id, details, stock), up)
    {
      var step := DbStep(db, Create(id, details, stock));
      db, r := step.0, step.1;
      if r.Found? && up {
        InvalidateProductList();
      }
    }

    method UpdateProduct(id: ProductId, details: Details, up: bool) returns (r: Reply)
      modifies this
      ensures (Contents(), r) == CachedStep(old(Contents()), Update(id, details), up)
    {
      var step := DbStep(db, Update(id, details));
      db, r := step.0, step.1;
      if r.Found? && up {
        InvalidateProduct(id);
        InvalidateProductList();
      }
    }

    method UpdateStock(id: ProductId, stock: int, up: bool) returns (r: Reply)
      modifies this
      ensures (Contents(), r) == CachedStep(old(Contents()), SetStock(id, stock), up)
    {
      var step := DbStep(db, SetStock(id, stock));
      db, r := step.0, step.1;
      if r.StockRow? && up {
        InvalidateProduct(id);
      }
    }

    method UpdateStockWithLock(id: ProductId, delta: int, fault: Fault, up: bool) returns (r: Reply)
      modifies this
      ensures (Contents(), r) == CachedStep(old(Contents()), AddStock(id, delta, fault), up)
    {
      var step := DbStep(db, AddStock(id, delta, fault));
      db, r := step.0, step.1;
      if r.StockRow? && up {
        InvalidateProduct(id);
      }
    }
  }
}
