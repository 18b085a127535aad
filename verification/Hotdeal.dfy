/** Hot-deal stock in Redis, the server that chooses the back-end, and the handler that opens and closes a deal. */
module Hotdeal {
  import opened Int32
  import opened ProductDb

  /** The codes the decrement script uses for its two failures. */
  const KEY_NOT_FOUND := -1
  const SHORT_OF_STOCK := -2

  datatype Lookup = Missing | Counter(value: int)

  /** The Lua script, run atomically: the new counters and the number it returns. */
  function DecrementScript(redis: StockTable, id: ProductId, quantity: int): (StockTable, int) {
    if id !in redis then
      (redis, KEY_NOT_FOUND)
    else if redis[id] < quantity then
      (redis, SHORT_OF_STOCK)
    else
      (redis[id := redis[id] - quantity], redis[id] - quantity)
  }

  /** A failure code is never mistaken for a stock, nor a stock for a failure code, for any counter whatsoever. */
  lemma {:induction false} ScriptCodesNeverCollide(redis: StockTable, id: ProductId, quantity: int)
    ensures var (redis', code) := DecrementScript(redis, id, quantity);
            && (code == KEY_NOT_FOUND <==> id !in redis)
            && (code == SHORT_OF_STOCK <==> id in redis && redis[id] < quantity)
            && (code >= 0 <==> id in redis && redis[id] >= quantity)
            && (code >= 0 ==> redis' == redis[id := code] && code == redis[id] - quantity)
            && (code < 0 ==> redis' == redis)
  {
  }

  /** What becomes of one Redis command: answered, lost before it ran, or run with its reply lost. Either loss is an
      error to the caller. */
  datatype Wire = Fine | CommandLost | ReplyLost

  datatype HotdealResult = Stock(stock: int) | NotEnabled | NotFound | Short | RedisError

  class HotdealRepository {
    const enabled: bool
    var redis: StockTable

    constructor (enabled: bool, redis: StockTable)
      ensures this.enabled == enabled && this.redis == redis
    {
      this.enabled := enabled;
      this.redis := redis;
    }

    method LoadStock(id: ProductId, stock: int, wire: Wire) returns (ok: bool)
      modifies this
      ensures ok == (!enabled || wire.Fine?)
      ensures redis == if enabled && !wire.CommandLost? then old(redis)[id := stock] else old(redis)
    {
      if !enabled {
        return true;
      }
      if !wire.CommandLost? {
        redis := redis[id := stock];
      }
      ok := wire.Fine?;
    }

    /** GET, then DEL. A missing key counts as an empty stock and is not deleted; a lost reply to the DEL leaves an
        error and no counter. */
    method UnloadStock(id: ProductId, get: Wire, del: Wire) returns (ok: bool, stock: int)
      modifies this
      ensures redis == if enabled && get.Fine? && !del.CommandLost? then old(redis) - {id} else old(redis)
      ensures ok <==> (enabled ==> get.Fine? && (id in old(redis) ==> del.Fine?))
      ensures stock == if enabled && ok && id in old(redis) then Wrap(old(redis)[id]) else 0
    {
      if !enabled {
        return true, 0;
      }
      if !get.Fine? {
        return false, 0;
      }
      if id !in redis {
        assert redis - {id} == redis;
        return true, 0;
      }
      var counter := redis[id];
      if !del.CommandLost? {
        redis := redis - {id};
      }
      if !del.Fine? {
        return false, 0;
      }
      return true, Wrap(counter);
    }

    method DecrementStock(id: ProductId, quantity: int, wire: Wire) returns (r: HotdealResult)
      modifies this
      ensures !enabled ==> r == NotEnabled && redis == old(redis)
      ensures enabled ==>
        var (redis', code) := DecrementScript(old(redis), id, quantity);
        && redis == (if wire.CommandLost? then old(redis) else redis')
        && r == if !wire.Fine? then RedisError
                else if code == KEY_NOT_FOUND then NotFound
                else if code == SHORT_OF_STOCK then Short else Stock(Wrap(code))
    {
      if !enabled {
        return NotEnabled;
      }
      if wire.CommandLost? {
        return RedisError;
      }
      var (redis', result) := DecrementScript(redis, id, quantity);
      redis := redis';
      if wire.ReplyLost? {
        return RedisError;
      }
      match result
      case -1 => r := NotFound;
      case -2 => r := Short;
      case _ => r := Stock(Wrap(result));
    }

    /** INCRBY: a missing key starts from zero. */
    method IncrementStock(id: ProductId, quantity: int, wire: Wire) returns (r: HotdealResult)
      modifies this
      ensures !enabled ==> r == NotEnabled && redis == old(redis)
      ensures enabled ==>
        var n := (if id in old(redis) then old(redis)[id] else 0) + quantity;
        && redis == (if wire.CommandLost? then old(redis) else old(redis)[id := n])
        && r == if wire.Fine? then Stock(Wrap(n)) else RedisError
    {
      if !enabled {
        return NotEnabled;
      }
      if wire.CommandLost? {
        return RedisError;
      }
      var n := (if id in redis then redis[id] else 0) + quantity;
      redis := redis[id := n];
      r := if wire.Fine? then Stock(Wrap(n)) else RedisError;
    }

    /** EXISTS; when Redis does not answer, there is no stock. */
    method HasStock(id: ProductId, wire: Wire) returns (has: bool)
      ensures has <==> enabled && wire.Fine? && id in redis
    {
      if !enabled {
        return false;
      }
      if !wire.Fine? {
        return false;
      }
      has := id in redis;
    }
  }

  // ----- ProductServer.UpdateStock -----

  /** The two stores of stock. */
  datatype Store = Store(db: StockTable, redis: StockTable)

  datatype Reply = Ok(stock: int) | FailedPrecondition | Internal

  /** Counter arithmetic of the hot-deal branch. */
  function HotUpdate(counter: int, delta: int): (int, Reply) {
    if delta < 0 then
      var quantity := Wrap(-delta);
      if counter < quantity then (counter, FailedPrecondition)
      else (counter - quantity, Ok(Wrap(counter - quantity)))
    else
      (counter + delta, Ok(Wrap(counter + delta)))
  }

  function DbReply(r: StockResult): Reply {
    match r
    case Updated(n) => Ok(n)
    case Insufficient => FailedPrecondition
    case NoRow => Internal
    case DbError => Internal
  }

  /** What can go wrong around one call: the EXISTS, the Redis update, the database transaction, the final read. */
  datatype Faults = Faults(probe: Wire, update: Wire, db: Fault, readable: bool)

  const NO_FAULTS := Faults(Fine, Fine, NoFault, true)

  /** Back-end choice and effect: Redis when the product is seen to have a counter, the database otherwise. */
  function StockUpdate(st: Store, enabled: bool, id: ProductId, delta: int, x: Faults): (Store, Reply) {
    if enabled && x.probe.Fine? && id in st.redis then
      if x.update.CommandLost? then (st, Internal)
      else
        var (n, r) := HotUpdate(st.redis[id], delta);
        (st.(redis := st.redis[id := n]), if x.update.Fine? then r else Internal)
    else
      var (t, r) := LockedUpdate(st.db, id, delta, x.db);
      (st.(db := t), DbReply(r))
  }

  /** One call: after the update a read of the product row, whose failure (or a missing row) turns a done update into
      an error. */
  function ServerUpdate(st: Store, enabled: bool, id: ProductId, delta: int, x: Faults): (Store, Reply) {
    var (st', reply) := StockUpdate(st, enabled, id, delta, x);
    (st', if reply.Ok? && !(x.readable && id in st'.db) then Internal else reply)
  }

  // ----- What an update does, said without its branches -----

  /** Redis is asked, answers, and has a counter for the product. */
  predicate InDeal(st: Store, enabled: bool, id: ProductId, x: Faults) {
    enabled && x.probe.Fine? && id in st.redis
  }

  /** Outside a deal no counter moves. The row moves by `delta` exactly when the database commits and the row stays in
      0..MAX, and no other row moves; the caller is told the new stock exactly when the row is also read back, that
      stock is short exactly when the row would leave its range, and of an internal error otherwise. */
  ghost predicate RowMoves(st: Store, id: ProductId, delta: int, x: Faults, st': Store, reply: Reply) {
    && st'.redis == st.redis && st'.db.Keys == st.db.Keys
    && (forall p :: p in st.db && p != id ==> st'.db[p] == st.db[p])
    && (id in st.db ==>
          var fits := 0 <= st.db[id] + delta <= MAX;
          && st'.db[id] == (if x.db.NoFault? && fits then st.db[id] + delta else st.db[id])
          && (reply == Ok(st.db[id] + delta) <==> x.db.NoFault? && fits && x.readable)
          && (reply == FailedPrecondition <==> !x.db.BeginFails? && !fits)
          && (reply == Internal <==> x.db.BeginFails? || (fits && !(x.db.NoFault? && x.readable))))
    && (id !in st.db ==> reply == Internal)
  }

  /** In a deal no row moves. The counter moves by `delta` exactly when the command gets through and the counter does
      not go below zero by a decrement, and no other counter moves; the caller is told the new stock exactly when the
      reply also comes and the row can be read, and that stock is short exactly when the reply comes and the counter
      could not pay. A lost command and a lost reply look the same to it. */
  ghost predicate CounterMoves(st: Store, id: ProductId, delta: int, x: Faults, st': Store, reply: Reply)
    requires id in st.redis
  {
    var fits := delta >= 0 || st.redis[id] + delta >= 0;
    && st'.db == st.db && st'.redis.Keys == st.redis.Keys
    && (forall p :: p in st.redis && p != id ==> st'.redis[p] == st.redis[p])
    && st'.redis[id] == (if !x.update.CommandLost? && fits then st.redis[id] + delta else st.redis[id])
    && (reply == Ok(Wrap(st.redis[id] + delta)) <==> x.update.Fine? && fits && x.readable && id in st.db)
    && (reply == FailedPrecondition <==> x.update.Fine? && !fits)
    && (reply == Internal <==> !x.update.Fine? || (fits && !(x.readable && id in st.db)))
  }

  /** Every update of the server: by the row outside a deal, by the counter in one. The most negative delta has no
      negation in `int32`: as a decrement it adds to the counter. */
  lemma {:induction false} UpdateLaw(st: Store, enabled: bool, id: ProductId, delta: int, x: Faults)
    requires ValidTable(st.db) && InRange(delta)
    ensures var (st', reply) := ServerUpdate(st, enabled, id, delta, x);
            && (!InDeal(st, enabled, id, x) ==> RowMoves(st, id, delta, x, st', reply))
            && (InDeal(st, enabled, id, x) && delta != MIN ==> CounterMoves(st, id, delta, x, st', reply))
            && (InDeal(st, enabled, id, x) && delta == MIN && st.redis[id] >= 0 && !x.update.CommandLost? ==>
                  st' == st.(redis := st.redis[id := st.redis[id] - MIN]))
  {
    if !InDeal(st, enabled, id, x) {
      LockedUpdateIsExact(st.db, id, delta, x.db);
    }
  }

  class ProductServer {
    const repo: DBRepository
    const hotdeal: HotdealRepository

    constructor (repo: DBRepository, hotdeal: HotdealRepository)
      ensures this.repo == repo && this.hotdeal == hotdeal
    {
      this.repo := repo;
      this.hotdeal := hotdeal;
    }

    ghost function View(): Store
      reads repo, hotdeal
    {
      Store(repo.rows, hotdeal.redis)
    }

    method UpdateStock(id: ProductId, delta: int, x: Faults) returns (reply: Reply)
      modifies repo, hotdeal
      ensures (View(), reply) == ServerUpdate(old(View()), hotdeal.enabled, id, delta, x)
      ensures ValidTable(old(repo.rows)) && InRange(delta) && !InDeal(old(View()), hotdeal.enabled, id, x) ==>
              RowMoves(old(View()), id, delta, x, View(), reply)
      ensures InDeal(old(View()), hotdeal.enabled, id, x) && MIN < delta <= MAX && ValidTable(old(repo.rows)) ==>
              CounterMoves(old(View()), id, delta, x, View(), reply)
    {
      ghost var before := View();
      if ValidTable(repo.rows) && InRange(delta) {
        UpdateLaw(before, hotdeal.enabled, id, delta, x);
      }
      var newStock: int;
      var hot := hotdeal.HasStock(id, x.probe);
      if hot {
        assert hotdeal.redis[id := hotdeal.redis[id]] == hotdeal.redis;
        if delta < 0 {
          var r := hotdeal.DecrementStock(id, Wrap(-delta), x.update);
          match r
          case Short => return FailedPrecondition;
          case Stock(n) => newStock := n;
          case _ => return Internal;
        } else {
          var r := hotdeal.IncrementStock(id, delta, x.update);
          match r
          case Stock(n) => newStock := n;
          case _ => return Internal;
        }
      } else {
        var r := repo.UpdateStockWithLock(id, delta, x.db);
        match r
        case Insufficient => return FailedPrecondition;
        case NoRow => return Internal;
        case DbError => return Internal;
        case Updated(n) => newStock := n;
      }
      var found, _ := repo.GetStock(id);
      if !(x.readable && found) {
        return Internal;
      }
      return Ok(newStock);
    }

    /** Opening a deal copies the stock it reads into a counter. `read` is what the product repository answers, which
        may come from its cache. */
    method StartHotdeal(id: ProductId, read: Lookup, wire: Wire) returns (ok: bool)
      modifies hotdeal
      ensures ok == (read.Counter? && (!hotdeal.enabled || wire.Fine?))
      ensures hotdeal.redis == if read.Counter? && hotdeal.enabled && !wire.CommandLost?
                               then old(hotdeal.redis)[id := read.value] else old(hotdeal.redis)
    {
      if read.Missing? {
        return false;
      }
      ok := hotdeal.LoadStock(id, read.value, wire);
    }

    /** Closing a deal deletes the counter and writes it back, unless it is zero; the write-back comes last and may
        fail. */
    method EndHotdeal(id: ProductId, get: Wire, del: Wire, fault: Fault) returns (ok: bool, remaining: int)
      modifies repo, hotdeal
      ensures hotdeal.enabled ==>
        var left := if id in old(hotdeal.redis) then Wrap(old(hotdeal.redis)[id]) else 0;
        && hotdeal.redis == (if get.Fine? && !del.CommandLost? then old(hotdeal.redis) - {id} else old(hotdeal.redis))
        && repo.rows == (if get.Fine? && del.Fine? && left > 0 && fault.NoFault? && id in old(repo.rows)
                         then old(repo.rows)[id := left] else old(repo.rows))
        && (ok <==> && get.Fine? && (id in old(hotdeal.redis) ==> del.Fine?)
                    && (left > 0 ==> fault.NoFault? && id in old(repo.rows)))
        && (ok ==> remaining == left)
      ensures hotdeal.enabled && get.Fine? && !del.CommandLost? ==>
        View() == EndOf(old(View()), id, del.Fine? && fault.NoFault?)
      ensures !hotdeal.enabled ==>
        View() == old(View()) && ok == (id in repo.rows) && (ok ==> remaining == repo.rows[id])
    {
      if hotdeal.enabled {
        ok, remaining := hotdeal.UnloadStock(id, get, del);
        if ok && remaining > 0 {
          ok := repo.UpdateStock(id, remaining, fault);
        }
      } else {
        ok, remaining := repo.GetStock(id);
      }
    }
  }

  // ----- A deal session against the plain database -----

  function StartOf(st: Store, id: ProductId): Store {
    if id in st.db then st.(redis := st.redis[id := st.db[id]]) else st
  }

  /** `written` is false when the write-back fails, or is not reached because the reply to the DEL was lost. */
  function EndOf(st: Store, id: ProductId, written: bool): Store {
    Store(if written && id in st.redis && Wrap(st.redis[id]) > 0 && id in st.db
          then st.db[id := Wrap(st.redis[id])] else st.db,
          st.redis - {id})
  }

  datatype Update = Update(id: ProductId, delta: int)

  /** The calls of a session, on any products, with nothing failing around them. */
  function Calls(st: Store, enabled: bool, us: seq<Update>): (Store, seq<Reply>)
    decreases |us|
  {
    if us == [] then (st, [])
    else
      var (st1, r) := ServerUpdate(st, enabled, us[0].id, us[0].delta, NO_FAULTS);
      var (st2, rs) := Calls(st1, enabled, us[1..]);
      (st2, [r] + rs)
  }

  /** Start a deal on the row's stock, calls, end of the deal. */
  function HotSession(st: Store, id: ProductId, us: seq<Update>, written: bool): (Store, seq<Reply>) {
    Closed(Calls(StartOf(st, id), true, us), id, written)
  }

  function Closed(calls: (Store, seq<Reply>), id: ProductId, written: bool): (Store, seq<Reply>) {
    (EndOf(calls.0, id, written), calls.1)
  }

  /** The same calls with hot deals disabled: all served by the database. */
  function PlainSession(st: Store, us: seq<Update>): (Store, seq<Reply>) {
    Calls(st, false, us)
  }

  /** What a caller can check beforehand: the quantity has a negation in int32, and the row would not overflow. */
  predicate Faithful(stock: int, delta: int) {
    delta != MIN && stock + delta <= MAX
  }

  function PlainStock(stock: int, delta: int): int {
    if 0 <= stock + delta <= MAX then stock + delta else stock
  }

  function PlainRows(db: StockTable, u: Update): StockTable {
    if u.id in db then db[u.id := PlainStock(db[u.id], u.delta)] else db
  }

  function RowsAfter(db: StockTable, us: seq<Update>): StockTable
    decreases |us|
  {
    if us == [] then db else RowsAfter(PlainRows(db, us[0]), us[1..])
  }

  /** Every call on a product in a deal is faithful when its turn comes. */
  predicate AllFaithful(deals: set<ProductId>, db: StockTable, us: seq<Update>)
    decreases |us|
  {
    us == []
    || ((us[0].id in deals && us[0].id in db ==> Faithful(db[us[0].id], us[0].delta))
        && AllFaithful(deals, PlainRows(db, us[0]), us[1..]))
  }

  /** One call: Redis and the database give the same answer and the same stock exactly when it is faithful. */
  lemma {:induction false} CallFaithfulIff(stock: int, delta: int)
    requires 0 <= stock <= MAX && InRange(delta)
    ensures var (n, hot) := HotUpdate(stock, delta);
            var (t, plain) := LockedUpdate(map[0 := stock], 0, delta, NoFault);
            && (hot == DbReply(plain) <==> Faithful(stock, delta))
            && (Faithful(stock, delta) ==> n == t[0] == PlainStock(stock, delta))
  {
  }

  /** Product `p` has the same stock on sale in both: in its counter if it has one, in its row otherwise. */
  ghost predicate Aligned(hot: Store, plain: Store, p: ProductId) {
    if p in plain.db then
      p in hot.db && 0 <= plain.db[p] <= MAX && plain.db[p] == (if p in hot.redis then hot.redis[p] else hot.db[p])
    else
      p !in hot.db && p !in hot.redis
  }

  /** One product takes over the stock of a plain table: in its counter if it has one, in its row otherwise. */
  function Moved(hot: Store, rows: StockTable, p: ProductId): Store {
    if p !in rows then hot
    else if p in hot.redis then hot.(redis := hot.redis[p := rows[p]])
    else hot.(db := hot.db[p := rows[p]])
  }

  lemma {:induction false} CallRepliesIff(hot: Store, plain: Store, u: Update)
    requires InRange(u.delta) && Aligned(hot, plain, u.id)
    ensures var (hot', hr) := ServerUpdate(hot, true, u.id, u.delta, NO_FAULTS);
            var (plain', pr) := ServerUpdate(plain, false, u.id, u.delta, NO_FAULTS);
            && plain' == plain.(db := PlainRows(plain.db, u))
            && (hr == pr <==> (u.id in hot.redis ==> Faithful(plain.db[u.id], u.delta)))
            && (hr == pr ==> hot' == Moved(hot, plain'.db, u.id) && Aligned(hot', plain', u.id))
  {
    if u.id in plain.db {
      var stock := plain.db[u.id];
      SignTestIsExact(stock, u.delta);
      assert plain.db[u.id := stock] == plain.db;
      if u.id in hot.redis {
        CallFaithfulIff(stock, u.delta);
        assert hot.redis[u.id := stock] == hot.redis;
      } else {
        assert hot.db[u.id := stock] == hot.db;
      }
    }
  }

  predicate Touched(us: seq<Update>, p: ProductId) {
    exists k :: 0 <= k < |us| && us[k].id == p
  }

  /** Where the session's products end: counters of deals and the other rows stand where the plain rows do, the rows of
      products in a deal and everything not touched stay. */
  ghost predicate Follows(hot: Store, hot': Store, rows: StockTable, us: seq<Update>) {
    && hot'.redis.Keys == hot.redis.Keys && hot'.db.Keys == hot.db.Keys
    && (forall p :: p in hot.redis ==>
          if Touched(us, p) then p in rows && hot'.redis[p] == rows[p] else hot'.redis[p] == hot.redis[p])
    && (forall p :: p in hot.db ==>
          if Touched(us, p) && p !in hot.redis then p in rows && hot'.db[p] == rows[p] else hot'.db[p] == hot.db[p])
  }

  ghost predicate SessionOk(hot: Store, plain: Store, us: seq<Update>) {
    forall k :: 0 <= k < |us| ==> InRange(us[k].delta) && Aligned(hot, plain, us[k].id)
  }

  lemma {:induction false} PlainCallsFollowRows(st: Store, us: seq<Update>)
    requires SessionOk(Store(st.db, map[]), st, us)
    ensures Calls(st, false, us).0 == st.(db := RowsAfter(st.db, us))
    ensures RowsAfter(st.db, us).Keys == st.db.Keys
    ensures forall p :: p in st.db ==>
              var n := RowsAfter(st.db, us)[p]; if Touched(us, p) then 0 <= n <= MAX else n == st.db[p]
    decreases |us|
  {
    if us != [] {
      var u, rest := us[0], us[1..];
      CallRepliesIff(Store(st.db, map[]), st, u);
      var st1 := ServerUpdate(st, false, u.id, u.delta, NO_FAULTS).0;
      assert SessionOk(Store(st1.db, map[]), st1, rest) by {
        forall k | 0 <= k < |rest| ensures Aligned(Store(st1.db, map[]), st1, rest[k].id) {
          assert rest[k] == us[k + 1];
        }
      }
      PlainCallsFollowRows(st1, rest);
      TouchedNext(us);
    }
  }

  lemma {:induction false} TouchedNext(us: seq<Update>)
    requires us != []
    ensures forall p :: Touched(us, p) <==> p == us[0].id || Touched(us[1..], p)
  {
    forall p ensures Touched(us, p) <==> p == us[0].id || Touched(us[1..], p) {
      if k :| 0 <= k < |us[1..]| && us[1..][k].id == p {
        assert us[k + 1].id == p;
      }
      if k :| 0 <= k < |us| && us[k].id == p {
        assert k > 0 ==> us[1..][k - 1].id == p;
      }
    }
  }

  lemma {:induction false} FollowsNext(hot: Store, hot1: Store, hot': Store, rows1: StockTable, rows: StockTable,
                                      us: seq<Update>)
    requires us != [] && hot1 == Moved(hot, rows1, us[0].id) && Follows(hot1, hot', rows, us[1..])
    requires us[0].id in rows1 <==> us[0].id in hot.db
    requires us[0].id in hot.redis ==> us[0].id in hot.db
    requires us[0].id in rows1 ==>
      us[0].id in rows && (!Touched(us[1..], us[0].id) ==> rows[us[0].id] == rows1[us[0].id])
    ensures Follows(hot, hot', rows, us)
  {
    TouchedNext(us);
  }

  lemma {:induction false} AlignedNext(hot: Store, hot1: Store, plain: Store, plain1: Store, us: seq<Update>)
    requires us != [] && SessionOk(hot, plain, us) && plain1 == plain.(db := PlainRows(plain.db, us[0]))
    requires hot1 == Moved(hot, plain1.db, us[0].id) && Aligned(hot1, plain1, us[0].id)
    ensures SessionOk(hot1, plain1, us[1..])
  {
    forall k | 0 <= k < |us[1..]| ensures InRange(us[1..][k].delta) && Aligned(hot1, plain1, us[1..][k].id) {
      assert us[1..][k] == us[k + 1] && Aligned(hot, plain, us[k + 1].id);
    }
  }

  lemma {:induction false} PlainSessionOk(hot: Store, plain: Store, us: seq<Update>)
    requires SessionOk(hot, plain, us)
    ensures SessionOk(Store(plain.db, map[]), plain, us)
  {
    forall k | 0 <= k < |us| ensures Aligned(Store(plain.db, map[]), plain, us[k].id) {
      assert Aligned(hot, plain, us[k].id);
    }
  }

  /** A session over any products, any of them in a deal, tells its callers what the database alone would have told them
      if and only if every call on a product in a deal is faithful; counters and rows then run along the rows the
      database would have had. */
  lemma {:induction false} SessionRepliesIff(hot: Store, plain: Store, us: seq<Update>)
    requires SessionOk(hot, plain, us)
    ensures var (hot', hrs) := Calls(hot, true, us);
            var (plain', prs) := Calls(plain, false, us);
            && plain' == plain.(db := RowsAfter(plain.db, us))
            && (hrs == prs <==> AllFaithful(hot.redis.Keys, plain.db, us))
            && (hrs == prs ==> Follows(hot, hot', plain'.db, us))
    decreases |us|
  {
    PlainSessionOk(hot, plain, us);
    PlainCallsFollowRows(plain, us);
    if us != [] {
      var u, rest := us[0], us[1..];
      CallRepliesIff(hot, plain, u);
      var (hot1, hr) := ServerUpdate(hot, true, u.id, u.delta, NO_FAULTS);
      var (plain1, pr) := ServerUpdate(plain, false, u.id, u.delta, NO_FAULTS);
      var hrs, prs := Calls(hot1, true, rest).1, Calls(plain1, false, rest).1;
      assert Calls(hot, true, us).1 == [hr] + hrs && Calls(plain, false, us).1 == [pr] + prs;
      assert ([hr] + hrs)[1..] == hrs && ([pr] + prs)[1..] == prs;
      assert ([hr] + hrs)[0] == hr && ([pr] + prs)[0] == pr;
      if hr == pr {
        AlignedNext(hot, hot1, plain, plain1, us);
        SessionRepliesIff(hot1, plain1, rest);
        assert hot1.redis.Keys == hot.redis.Keys;
        if hrs == prs {
          PlainSessionOk(hot1, plain1, rest);
          PlainCallsFollowRows(plain1, rest);
          FollowsNext(hot, hot1, Calls(hot1, true, rest).0, plain1.db, RowsAfter(plain1.db, rest), us);
        }
      }
    }
  }

  /** When a deal that ends with `left` units leaves the row that the plain database would have. */
  predicate Settles(row: int, left: int, written: bool) {
    (written && left > 0) || row == left
  }

  /** What a session around one deal is taken to satisfy: the product exists and has no counter yet, and no call goes to
      a product in another deal. */
  ghost predicate OneDeal(st: Store, id: ProductId, us: seq<Update>) {
    && id in st.db && id !in st.redis && 0 <= st.db[id] <= MAX
    && (forall k :: 0 <= k < |us| ==> InRange(us[k].delta) && us[k].id !in st.redis && Aligned(st, st, us[k].id))
  }

  /** A whole deal, start to end, while other products are sold from their rows, is indistinguishable from never having
      had Redis (same replies, same rows, same counters of other deals) if and only if every call on its product is
      faithful and the deal settles: units are left and the write-back succeeds, or the row already shows what is left.
      `EndHotdeal` writes nothing when the counter is zero. */
  lemma {:induction false} SessionRefinesDbIff(st: Store, id: ProductId, us: seq<Update>, written: bool)
    requires OneDeal(st, id, us)
    ensures id in RowsAfter(st.db, us)
    ensures HotSession(st, id, us, written) == PlainSession(st, us) <==>
            AllFaithful(st.redis.Keys + {id}, st.db, us) && Settles(st.db[id], RowsAfter(st.db, us)[id], written)
  {
    SessionEnds(st, id, us, written);
    EndLaw(RowsAfter(st.db, us), st.redis, id, st.db[id], written);
  }

  /** Where a session stands after `EndHotdeal`: a counter ran beside a row that stayed. */
  lemma {:induction false} SessionEnds(st: Store, id: ProductId, us: seq<Update>, written: bool)
    requires OneDeal(st, id, us)
    ensures var rows := RowsAfter(st.db, us);
            var hot, plain := HotSession(st, id, us, written), PlainSession(st, us);
            && id in rows && 0 <= rows[id] <= MAX
            && plain.0 == st.(db := rows)
            && (hot.1 == plain.1 <==> AllFaithful(st.redis.Keys + {id}, st.db, us))
            && (hot.1 == plain.1 ==>
                  hot.0 == EndOf(Store(rows[id := st.db[id]], st.redis[id := rows[id]]), id, written))
  {
    var open, rows := StartOf(st, id), RowsAfter(st.db, us);
    assert open.redis.Keys == st.redis.Keys + {id};
    forall k | 0 <= k < |us| ensures Aligned(open, st, us[k].id) {
      assert Aligned(st, st, us[k].id);
    }
    SessionRepliesIff(open, st, us);
    PlainSessionOk(open, st, us);
    PlainCallsFollowRows(st, us);
    if HotSession(st, id, us, written).1 == PlainSession(st, us).1 {
      CounterRanBesideRow(st, id, us, Calls(open, true, us).0);
    }
  }

  lemma {:induction false} CounterRanBesideRow(st: Store, id: ProductId, us: seq<Update>, hot': Store)
    requires OneDeal(st, id, us) && RowsAfter(st.db, us).Keys == st.db.Keys
    requires forall p :: p in st.db && !Touched(us, p) ==> RowsAfter(st.db, us)[p] == st.db[p]
    requires Follows(StartOf(st, id), hot', RowsAfter(st.db, us), us)
    ensures var rows := RowsAfter(st.db, us); hot' == Store(rows[id := st.db[id]], st.redis[id := rows[id]])
  {
    var rows := RowsAfter(st.db, us);
    forall p | p in st.redis ensures !Touched(us, p) && hot'.redis[p] == st.redis[p] {
    }
    assert hot'.redis == st.redis[id := rows[id]];
    assert hot'.db == rows[id := st.db[id]];
  }

  /** Closing a deal whose counter stands where the plain row would, over a row left at `row`, gives that plain row if
      and only if it settles. */
  lemma {:induction false} EndLaw(rows: StockTable, redis: StockTable, id: ProductId, row: int, written: bool)
    requires id in rows && id !in redis && 0 <= rows[id] <= MAX
    ensures EndOf(Store(rows[id := row], redis[id := rows[id]]), id, written) == Store(rows, redis) <==>
            Settles(row, rows[id], written)
  {
    assert redis[id := rows[id]] - {id} == redis;
    assert rows[id := row][id := rows[id]] == rows;
    if row == rows[id] {
      assert rows[id := row] == rows;
    } else {
      assert rows[id := row][id] != rows[id];
    }
  }

  /** The unsettled case: however the deal sold its units, if it sold out or its write-back failed its row has all of
      them back afterwards, so they can be sold a second time. */
  lemma {:induction false} UnsettledDealRestoresTheRow(st: Store, id: ProductId, us: seq<Update>, written: bool)
    requires OneDeal(st, id, us) && AllFaithful(st.redis.Keys + {id}, st.db, us)
    requires id in RowsAfter(st.db, us) && !Settles(st.db[id], RowsAfter(st.db, us)[id], written)
    ensures var rows := RowsAfter(st.db, us);
            && HotSession(st, id, us, written).0 == Store(rows[id := st.db[id]], st.redis)
            && PlainSession(st, us).0 == Store(rows, st.redis)
            && rows[id] != st.db[id]
  {
    var rows := RowsAfter(st.db, us);
    SessionEnds(st, id, us, written);
    assert st.redis[id := rows[id]] - {id} == st.redis;
  }

  /** It happens: one unit in stock, one buyer, nothing failing. */
  lemma {:induction false} SoldOutExample(st: Store, id: ProductId)
    requires id in st.db && id !in st.redis && st.db[id] == 1
    ensures HotSession(st, id, [Update(id, -1)], true).0 == st != PlainSession(st, [Update(id, -1)]).0
  {
    var us := [Update(id, -1)];
    assert us[1..] == [];
    assert RowsAfter(st.db, us) == st.db[id := 0];
    assert AllFaithful(st.redis.Keys + {id}, st.db, us);
    UnsettledDealRestoresTheRow(st, id, us, true);
    assert st.db[id := 0][id := 1] == st.db;
  }
}
