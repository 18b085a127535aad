/** Cached reads of products and pages while writes go on: looking up, reading the table, storing, committing, deleting
    and scanning are separate steps of any number of concurrent calls. */
module CacheConcurrency {
  import opened Common
  import opened Int32
  import opened ProductDb
  import opened ProductCache

  datatype Key = ProductEntry(id: ProductId) | PageEntry(limit: nat, offset: nat)

  /** What the table answers to the query behind a key. */
  function Answer(db: Db, key: Key): Option<Value> {
    match key
    case ProductEntry(id) => if id in db.rows then Some(One(db.rows[id])) else None
    case PageEntry(limit, offset) => Some(Many(PageOf(db, limit, offset)))
  }

  /** A value together with the number of the table version it was read from. */
  datatype Copy = Copy(value: Value, version: nat)

  datatype Phase =
    | Looking                               // a read, before its cache lookup
    | Missed                                // going to the table
    | Fetched(copy: Copy)                   // read from the table, not yet stored
    | Returned(copy: Copy, fetched: bool)   // from the table or from the cache
    | Absent                                // no such row
    | Writing(op: Op)                       // a write, before its transaction
    | Deleting(op: Op)                      // committed, the product's key not yet deleted
    | Scanning                              // deleting page keys
    | Ended

  /** A call; `since` is the number of the table version when it began. */
  datatype Proc = Proc(key: Key, phase: Phase, since: nat)

  /** `tables` is history; the last one is the table. */
  datatype State = State(tables: seq<Db>, cache: map<Key, Copy>, procs: seq<Proc>)

  datatype Event =
    | StartGet(key: Key)
    | StartWrite(op: Op)
    | LookUp(p: nat, up: bool)
    | Fetch(p: nat)
    | Store(p: nat, up: bool)
    | Commit(p: nat)
    | Delete(p: nat, up: bool)
    | Sweep(p: nat, limit: nat, offset: nat)
    | EndSweep(p: nat)
    | Expire(key: Key)

  /** A delta is an `int32`. */
  predicate Int32Op(op: Op) {
    op.AddStock? ==> InRange(op.delta)
  }

  predicate Enabled(s: State, e: Event) {
    && s.tables != []
    && match e
       case StartGet(_) => true
       case StartWrite(op) => Writes(op) && Int32Op(op)
       case LookUp(p, _) => p < |s.procs| && s.procs[p].phase.Looking?
       case Fetch(p) => p < |s.procs| && s.procs[p].phase.Missed?
       case Store(p, _) => p < |s.procs| && s.procs[p].phase.Fetched?
       case Commit(p) => p < |s.procs| && s.procs[p].phase.Writing? && Writes(s.procs[p].phase.op)
       case Delete(p, _) => p < |s.procs| && s.procs[p].phase.Deleting?
       case Sweep(p, _, _) => p < |s.procs| && s.procs[p].phase.Scanning?
       case EndSweep(p) => p < |s.procs| && s.procs[p].phase.Scanning?
       case Expire(_) => true
  }

  function Now(s: State): Db
    requires s.tables != []
  {
    s.tables[|s.tables| - 1]
  }

  function Move(s: State, p: nat, phase: Phase): State
    requires p < |s.procs|
  {
    s.(procs := s.procs[p := s.procs[p].(phase := phase)])
  }

  predicate Succeeds(db: Db, op: Op) {
    DbStep(db, op).1.Found? || DbStep(db, op).1.StockRow?
  }

  /** After its transaction a write deletes its product's key, then page keys; a creation only page keys, a stock write
      only its product's. A refused write does neither. */
  function Committed(s: State, p: nat): State
    requires Enabled(s, Commit(p))
  {
    var op := s.procs[p].phase.op;
    if Succeeds(Now(s), op) then
      Move(s.(tables := s.tables + [DbStep(Now(s), op).0]), p, if op.Create? then Scanning else Deleting(op))
    else
      Move(s, p, Ended)
  }

  /** `up` is whether Redis answers; when it does not, a lookup misses, a store or a delete is lost. */
  function Next(s: State, e: Event): State
    requires Enabled(s, e)
  {
    match e
    case StartGet(key) => s.(procs := s.procs + [Proc(key, Looking, |s.tables| - 1)])
    case StartWrite(op) => s.(procs := s.procs + [Proc(ProductEntry(op.id), Writing(op), |s.tables| - 1)])
    case LookUp(p, up) =>
      var key := s.procs[p].key;
      Move(s, p, if up && key in s.cache then Returned(s.cache[key], false) else Missed)
    case Fetch(p) =>
      Move(s, p, match Answer(Now(s), s.procs[p].key)
                 case Some(v) => Fetched(Copy(v, |s.tables| - 1))
                 case None => Absent)
    case Store(p, up) =>
      var c := s.procs[p].phase.copy;
      Move(if up then s.(cache := s.cache[s.procs[p].key := c]) else s, p, Returned(c, true))
    case Commit(p) => Committed(s, p)
    case Delete(p, up) =>
      Move(if up then s.(cache := s.cache - {s.procs[p].key}) else s, p,
           if s.procs[p].phase.op.Update? then Scanning else Ended)
    case Sweep(_, limit, offset) => s.(cache := s.cache - {PageEntry(limit, offset)})
    case EndSweep(p) => Move(s, p, Ended)
    case Expire(key) => s.(cache := s.cache - {key})
  }

  predicate Executable(s: State, evs: seq<Event>)
    decreases |evs|, 0
  {
    evs == [] || (Executable(s, evs[..|evs| - 1]) && Enabled(Run(s, evs[..|evs| - 1]), evs[|evs| - 1]))
  }

  function Run(s: State, evs: seq<Event>): State
    requires Executable(s, evs)
    decreases |evs|, 1
  {
    if evs == [] then s else Next(Run(s, evs[..|evs| - 1]), evs[|evs| - 1])
  }

  /** One table, an empty cache, no calls. */
  ghost predicate Initial(s: State) {
    s.cache == map[] && s.procs == [] && |s.tables| == 1
  }

  // ----- Every value was an answer -----

  ghost predicate IsVersion(s: State, key: Key, c: Copy) {
    c.version < |s.tables| && Answer(s.tables[c.version], key) == Some(c.value)
  }

  /** What a call holds is what some version of the table answers; if it went to the table, one no older than the call
      itself. A write stands under its product's key. */
  ghost predicate ProcOk(s: State, x: Proc) {
    && (x.phase.Fetched? ==> IsVersion(s, x.key, x.phase.copy) && x.phase.copy.version >= x.since)
    && (x.phase.Returned? ==>
        IsVersion(s, x.key, x.phase.copy) && (x.phase.fetched ==> x.phase.copy.version >= x.since))
    && (x.phase.Writing? ==>
        Writes(x.phase.op) && Int32Op(x.phase.op) && x.key == ProductEntry(x.phase.op.id))
    && x.since < |s.tables|
  }

  ghost predicate ProcsOk(s: State) {
    forall p :: 0 <= p < |s.procs| ==> ProcOk(s, s.procs[p])
  }

  ghost predicate CacheOk(s: State) {
    forall key :: key in s.cache ==> IsVersion(s, key, s.cache[key])
  }

  /** Rows are never deleted. */
  ghost predicate RowsOk(s: State) {
    s.tables != [] && forall i, id :: 0 <= i < |s.tables| && id in s.tables[i].rows ==> id in Now(s).rows
  }

  /** The history only grows. */
  lemma {:induction false} VersionsStay(s: State, e: Event, key: Key, c: Copy)
    requires Enabled(s, e)
    ensures s.tables <= Next(s, e).tables
    ensures IsVersion(s, key, c) ==> IsVersion(Next(s, e), key, c)
  {
  }

  lemma {:induction false} StepKeepsProcs(s: State, e: Event)
    requires ProcsOk(s) && CacheOk(s) && Enabled(s, e)
    ensures ProcsOk(Next(s, e))
  {
    var s' := Next(s, e);
    forall p | 0 <= p < |s'.procs| ensures ProcOk(s', s'.procs[p]) {
      if p < |s.procs| {
        var x, x' := s.procs[p], s'.procs[p];
        assert ProcOk(s, x);
        VersionsStay(s, e, x.key,
                     if x'.phase.Fetched? || x'.phase.Returned? then x'.phase.copy else Copy(Counter(0), 0));
      }
    }
  }

  lemma {:induction false} StepKeepsCache(s: State, e: Event)
    requires ProcsOk(s) && CacheOk(s) && Enabled(s, e)
    ensures CacheOk(Next(s, e))
  {
    var s' := Next(s, e);
    forall key | key in s'.cache ensures IsVersion(s', key, s'.cache[key]) {
      if e.Store? && e.up && s.procs[e.p].key == key {
        assert ProcOk(s, s.procs[e.p]);
      } else {
        assert IsVersion(s, key, s.cache[key]);
      }
      VersionsStay(s, e, key, s'.cache[key]);
    }
  }

  lemma {:induction false} RowsAreKept(db: Db, op: Op, id: ProductId)
    ensures id in db.rows ==> id in DbStep(db, op).0.rows
    ensures Writes(op) && id != op.id ==> Answer(DbStep(db, op).0, ProductEntry(id)) == Answer(db, ProductEntry(id))
  {
  }

  lemma {:induction false} StepKeepsRows(s: State, e: Event)
    requires RowsOk(s) && Enabled(s, e)
    ensures RowsOk(Next(s, e))
  {
    var s' := Next(s, e);
    forall i, id | 0 <= i < |s'.tables| && id in s'.tables[i].rows ensures id in Now(s').rows {
      if i < |s.tables| {
        assert s'.tables[i] == s.tables[i] && id in Now(s).rows;
      }
      if e.Commit? && i < |s.tables| {
        RowsAreKept(Now(s), s.procs[e.p].phase.op, id);
      }
    }
  }

  lemma {:induction false} RunKeepsVersions(s: State, evs: seq<Event>)
    requires Initial(s) && Executable(s, evs)
    ensures ProcsOk(Run(s, evs)) && CacheOk(Run(s, evs)) && RowsOk(Run(s, evs))
    decreases |evs|
  {
    if evs != [] {
      var before, e := evs[..|evs| - 1], evs[|evs| - 1];
      RunKeepsVersions(s, before);
      StepKeepsProcs(Run(s, before), e);
      StepKeepsCache(Run(s, before), e);
      StepKeepsRows(Run(s, before), e);
    }
  }

  /** After `k` events of the run the table answered `c` for `key`. */
  ghost predicate WasAnswer(s: State, evs: seq<Event>, k: nat, key: Key, c: Copy)
    requires Executable(s, evs)
  {
    && k <= |evs| && Executable(s, evs[..k])
    && |Run(s, evs[..k]).tables| == c.version + 1
    && Answer(Now(Run(s, evs[..k])), key) == Some(c.value)
  }

  lemma {:induction false} WasAnswerLater(s: State, evs: seq<Event>, n: nat, k: nat, key: Key, c: Copy)
    requires n <= |evs| && Executable(s, evs) && Executable(s, evs[..n]) && WasAnswer(s, evs[..n], k, key, c)
    ensures WasAnswer(s, evs, k, key, c)
  {
    assert evs[..n][..k] == evs[..k];
  }

  lemma {:induction false} VersionBefore(s: State, e: Event, key: Key, c: Copy)
    requires Enabled(s, e) && IsVersion(Next(s, e), key, c) && |Next(s, e).tables| != c.version + 1
    ensures IsVersion(s, key, c)
  {
  }

  /** The table changes one version at a time, so each version was the table at some moment. */
  lemma {:induction false} VersionsWereAnswers(s: State, evs: seq<Event>, key: Key, c: Copy) returns (k: nat)
    requires Initial(s) && Executable(s, evs) && IsVersion(Run(s, evs), key, c)
    ensures WasAnswer(s, evs, k, key, c)
    decreases |evs|
  {
    if |Run(s, evs).tables| == c.version + 1 {
      k := |evs|;
      assert evs[..k] == evs;
    } else {
      var n := |evs| - 1;
      assert evs != [];
      VersionBefore(Run(s, evs[..n]), evs[n], key, c);
      k := VersionsWereAnswers(s, evs[..n], key, c);
      WasAnswerLater(s, evs, n, k, key, c);
    }
  }

  /** Cached reads are historical, of products and of pages: whatever races, expires or is lost, every value a read
      returns was the table's answer at some moment of the run; and a read that went to the table returns the answer of
      a version no older than when it began. */
  lemma {:induction false} ReadsAreHistorical(s: State, evs: seq<Event>, p: nat) returns (k: nat)
    requires Initial(s) && Executable(s, evs)
    requires p < |Run(s, evs).procs| && Run(s, evs).procs[p].phase.Returned?
    ensures var x := Run(s, evs).procs[p];
            && WasAnswer(s, evs, k, x.key, x.phase.copy)
            && (x.phase.fetched ==> x.phase.copy.version >= x.since)
  {
    RunKeepsVersions(s, evs);
    var x := Run(s, evs).procs[p];
    assert ProcOk(Run(s, evs), x);
    k := VersionsWereAnswers(s, evs, x.key, x.phase.copy);
  }

  // ----- When cached products are current -----

  ghost predicate Current(s: State, key: Key, c: Copy) {
    s.tables != [] && Answer(Now(s), key) == Some(c.value)
  }

  ghost predicate Stale(s: State, id: ProductId) {
    ProductEntry(id) in s.cache && !Current(s, ProductEntry(id), s.cache[ProductEntry(id)])
  }

  predicate IsDeleting(x: Proc, id: ProductId) {
    x.key == ProductEntry(id) && x.phase.Deleting?
  }

  /** A committed write other than that of call `but` has yet to delete the product's key. */
  ghost predicate Pending(s: State, id: ProductId, but: nat) {
    exists q :: 0 <= q < |s.procs| && q != but && IsDeleting(s.procs[q], id)
  }

  ghost predicate AnyPending(s: State, id: ProductId) {
    exists q :: 0 <= q < |s.procs| && IsDeleting(s.procs[q], id)
  }

  /** Every outdated product entry is about to be deleted. */
  ghost predicate Excused(s: State) {
    forall id :: Stale(s, id) ==> AnyPending(s, id)
  }

  /** A store of a row that a write has already replaced and deleted, or the loss of the only delete that an outdated
      entry was waiting for. */
  ghost predicate Harmful(s: State, e: Event)
    requires Enabled(s, e)
  {
    match e
    case Store(p, up) =>
      var x := s.procs[p];
      up && x.key.ProductEntry? && !Current(s, x.key, x.phase.copy) && !AnyPending(s, x.key.id)
    case Delete(p, up) =>
      var key := s.procs[p].key;
      !up && key.ProductEntry? && Stale(s, key.id) && !Pending(s, key.id, p)
    case _ => false
  }

  /** Deletes that stay pending: those of other calls. */
  lemma {:induction false} PendingStays(s: State, e: Event, id: ProductId)
    requires Enabled(s, e) && AnyPending(s, id)
    requires e.Delete? ==> s.procs[e.p].key != ProductEntry(id) || Pending(s, id, e.p)
    ensures AnyPending(Next(s, e), id)
  {
    var s' := Next(s, e);
    if e.Delete? && s.procs[e.p].key == ProductEntry(id) {
      var q :| 0 <= q < |s.procs| && q != e.p && IsDeleting(s.procs[q], id);
      assert s'.procs[q] == s.procs[q];
    } else {
      var q :| 0 <= q < |s.procs| && IsDeleting(s.procs[q], id);
      assert s'.procs[q] == s.procs[q];
    }
  }

  /** A commit outdates its own product's entry only, and is about to delete it. */
  lemma {:induction false} CommitKeepsExcused(s: State, p: nat, id: ProductId)
    requires ProcsOk(s) && CacheOk(s) && RowsOk(s) && Enabled(s, Commit(p)) && (Stale(s, id) ==> AnyPending(s, id))
    requires Stale(Next(s, Commit(p)), id)
    ensures AnyPending(Next(s, Commit(p)), id)
  {
    var s' := Next(s, Commit(p));
    var x := s.procs[p];
    assert ProcOk(s, x);
    assert IsVersion(s, ProductEntry(id), s.cache[ProductEntry(id)]);
    if Succeeds(Now(s), x.phase.op) && id == x.phase.op.id {
      assert IsDeleting(s'.procs[p], id);
    } else {
      RowsAreKept(Now(s), x.phase.op, id);
      PendingStays(s, Commit(p), id);
    }
  }

  /** A step other than a harmful one leaves every outdated entry about to be deleted. */
  lemma {:induction false} HarmlessKeepsExcused(s: State, e: Event, id: ProductId)
    requires ProcsOk(s) && CacheOk(s) && RowsOk(s) && Enabled(s, e) && !Harmful(s, e)
    requires Stale(s, id) ==> AnyPending(s, id)
    requires Stale(Next(s, e), id)
    ensures AnyPending(Next(s, e), id)
  {
    if e.Commit? {
      CommitKeepsExcused(s, e.p, id);
    } else {
      PendingStays(s, e, id);
    }
  }

  /** Exactly the harmful steps leave an outdated entry that nothing will delete. */
  lemma {:induction false} StepStaysExcusedIff(s: State, e: Event)
    requires ProcsOk(s) && CacheOk(s) && RowsOk(s) && Excused(s) && Enabled(s, e)
    ensures Excused(Next(s, e)) <==> !Harmful(s, e)
  {
    if Harmful(s, e) {
      HarmIsDone(s, e);
    } else {
      forall id | Stale(Next(s, e), id) ensures AnyPending(Next(s, e), id) {
        HarmlessKeepsExcused(s, e, id);
      }
    }
  }

  lemma {:induction false} HarmIsDone(s: State, e: Event)
    requires Enabled(s, e) && Harmful(s, e)
    ensures Stale(Next(s, e), s.procs[e.p].key.id) && !AnyPending(Next(s, e), s.procs[e.p].key.id)
  {
    var s', id := Next(s, e), s.procs[e.p].key.id;
    forall q | 0 <= q < |s'.procs| ensures !IsDeleting(s'.procs[q], id) {
      assert q != e.p ==> s'.procs[q] == s.procs[q];
    }
  }

  ghost predicate Harmless(s: State, evs: seq<Event>)
    requires Executable(s, evs)
    decreases |evs|
  {
    evs == []
    || (Harmless(s, evs[..|evs| - 1]) && !Harmful(Run(s, evs[..|evs| - 1]), evs[|evs| - 1]))
  }

  lemma {:induction false} HarmlessRunStaysExcused(s: State, evs: seq<Event>)
    requires Initial(s) && Executable(s, evs) && Harmless(s, evs)
    ensures Excused(Run(s, evs))
    decreases |evs|
  {
    if evs != [] {
      var before := evs[..|evs| - 1];
      HarmlessRunStaysExcused(s, before);
      RunKeepsVersions(s, before);
      StepStaysExcusedIff(Run(s, before), evs[|evs| - 1]);
    }
  }

  /** In a run without harmful steps, whenever no write has its delete outstanding, every cached product is its row. */
  lemma {:induction false} CacheIsCurrentWhenWritesEnd(s: State, evs: seq<Event>, id: ProductId)
    requires Initial(s) && Executable(s, evs) && Harmless(s, evs)
    requires !AnyPending(Run(s, evs), id) && ProductEntry(id) in Run(s, evs).cache
    ensures Current(Run(s, evs), ProductEntry(id), Run(s, evs).cache[ProductEntry(id)])
  {
    HarmlessRunStaysExcused(s, evs);
  }

  // ----- When cached pages are right -----

  /** `v` is the page as the table has it, but for stock and time of change. */
  ghost predicate Alike(db: Db, key: Key, v: Value) {
    key.PageEntry? && v.Many? && SamePage(v.products, PageOf(db, key.limit, key.offset))
  }

  ghost predicate PageStale(s: State, key: Key)
    requires s.tables != []
  {
    key.PageEntry? && key in s.cache && !Alike(Now(s), key, s.cache[key].value)
  }

  /** A creation or an edit has committed and has yet to finish its page scan. */
  predicate Sweeps(x: Proc) {
    x.phase.Scanning? || (x.phase.Deleting? && x.phase.op.Update?)
  }

  ghost predicate SweepPending(s: State, but: nat) {
    exists q :: 0 <= q < |s.procs| && q != but && Sweeps(s.procs[q])
  }

  ghost predicate AnySweep(s: State) {
    exists q :: 0 <= q < |s.procs| && Sweeps(s.procs[q])
  }

  /** Wrong pages are cached only while a scan goes on. */
  ghost predicate PagesExcused(s: State) {
    s.tables != [] && (AnySweep(s) || forall key :: !PageStale(s, key))
  }

  /** A store of a page that a write has already changed and scanned for, or the end of the last scan before it reached
      every wrong page. */
  ghost predicate PageHarmful(s: State, e: Event)
    requires Enabled(s, e)
  {
    match e
    case Store(p, up) =>
      up && s.procs[p].key.PageEntry? && !Alike(Now(s), s.procs[p].key, s.procs[p].phase.copy.value) && !AnySweep(s)
    case EndSweep(p) => !SweepPending(s, p) && exists key :: PageStale(s, key)
    case _ => false
  }

  lemma {:induction false} SweepStays(s: State, e: Event)
    requires Enabled(s, e) && AnySweep(s) && (e.EndSweep? ==> SweepPending(s, e.p))
    ensures AnySweep(Next(s, e))
  {
    var s' := Next(s, e);
    if e.EndSweep? {
      var q :| 0 <= q < |s.procs| && q != e.p && Sweeps(s.procs[q]);
      assert s'.procs[q] == s.procs[q];
    } else {
      var q :| 0 <= q < |s.procs| && Sweeps(s.procs[q]);
      assert Sweeps(s'.procs[q]);
    }
  }

  /** A stock write changes no page but for stock and time of change; other writes start to scan. */
  lemma {:induction false} CommitKeepsPages(s: State, p: nat)
    requires Enabled(s, Commit(p)) && ProcsOk(s) && DbOk(Now(s)) && PagesExcused(s)
    ensures PagesExcused(Next(s, Commit(p)))
  {
    var s', op := Next(s, Commit(p)), s.procs[p].phase.op;
    assert ProcOk(s, s.procs[p]);
    if AnySweep(s) {
      SweepStays(s, Commit(p));
    } else if Succeeds(Now(s), op) && (op.Create? || op.Update?) {
      assert Sweeps(s'.procs[p]);
    } else {
      forall key ensures !PageStale(s', key) {
        assert !PageStale(s, key);
        if key.PageEntry? && key in s.cache {
          StockKeepsPage(Now(s), op, key, s.cache[key].value);
        }
      }
    }
  }

  lemma {:induction false} StockKeepsPage(db: Db, op: Op, key: Key, v: Value)
    requires DbOk(db) && Writes(op) && Int32Op(op) && Alike(db, key, v)
    ensures Succeeds(db, op) && (op.SetStock? || op.AddStock?) ==> Alike(DbStep(db, op).0, key, v)
  {
    if Succeeds(db, op) && (op.SetStock? || op.AddStock?) {
      LockedUpdateIsExact(Stocks(db), op.id, if op.AddStock? then op.delta else 0, NoFault);
      StockWriteOnPage(db, op.id, DbStep(db, op).1.stock, key.limit, key.offset);
    }
  }

  /** Exactly the harmful steps leave a wrong page that no scan will reach. */
  lemma {:induction false} StepKeepsPagesIff(s: State, e: Event)
    requires Enabled(s, e) && ProcsOk(s) && DbOk(Now(s)) && PagesExcused(s)
    ensures PagesExcused(Next(s, e)) <==> !PageHarmful(s, e)
  {
    if PageHarmful(s, e) {
      PageHarmIsDone(s, e);
    } else if e.Commit? {
      CommitKeepsPages(s, e.p);
    } else if AnySweep(s) && (e.EndSweep? ==> SweepPending(s, e.p)) {
      SweepStays(s, e);
    } else {
      forall key ensures !PageStale(Next(s, e), key) {
        assert !PageStale(s, key);
      }
    }
  }

  lemma {:induction false} PageHarmIsDone(s: State, e: Event)
    requires Enabled(s, e) && PageHarmful(s, e)
    ensures !PagesExcused(Next(s, e))
  {
    var s' := Next(s, e);
    forall q | 0 <= q < |s'.procs| ensures !Sweeps(s'.procs[q]) {
      assert q != e.p ==> s'.procs[q] == s.procs[q];
    }
    if e.Store? {
      assert PageStale(s', s.procs[e.p].key);
    } else {
      var key :| PageStale(s, key);
      assert PageStale(s', key);
    }
  }

  ghost predicate PageHarmless(s: State, evs: seq<Event>)
    requires Executable(s, evs)
    decreases |evs|
  {
    evs == []
    || (PageHarmless(s, evs[..|evs| - 1]) && !PageHarmful(Run(s, evs[..|evs| - 1]), evs[|evs| - 1]))
  }

  lemma {:induction false} StepKeepsTable(s: State, e: Event)
    requires Enabled(s, e) && ProcsOk(s) && DbOk(Now(s))
    ensures Next(s, e).tables != [] && DbOk(Now(Next(s, e)))
  {
    if e.Commit? {
      assert ProcOk(s, s.procs[e.p]);
      DbStepKeepsDb(Now(s), s.procs[e.p].phase.op);
    }
  }

  lemma {:induction false} PageHarmlessRunStaysExcused(s: State, evs: seq<Event>)
    requires Initial(s) && DbOk(Now(s)) && Executable(s, evs) && PageHarmless(s, evs)
    ensures PagesExcused(Run(s, evs)) && DbOk(Now(Run(s, evs)))
    decreases |evs|
  {
    if evs != [] {
      var before := evs[..|evs| - 1];
      PageHarmlessRunStaysExcused(s, before);
      RunKeepsVersions(s, before);
      StepKeepsPagesIff(Run(s, before), evs[|evs| - 1]);
      StepKeepsTable(Run(s, before), evs[|evs| - 1]);
    }
  }

  /** In a run without such steps, whenever no scan is outstanding, every cached page has the table's membership, order
      and details. */
  lemma {:induction false} PagesAreRightWhenScansEnd(s: State, evs: seq<Event>, limit: nat, offset: nat)
    requires Initial(s) && DbOk(Now(s)) && Executable(s, evs) && PageHarmless(s, evs)
    requires !AnySweep(Run(s, evs)) && PageEntry(limit, offset) in Run(s, evs).cache
    ensures Run(s, evs).tables != []
    ensures Alike(Now(Run(s, evs)), PageEntry(limit, offset), Run(s, evs).cache[PageEntry(limit, offset)].value)
  {
    PageHarmlessRunStaysExcused(s, evs);
    assert !PageStale(Run(s, evs), PageEntry(limit, offset));
  }

  // ----- The overtaken reader -----

  /** What a write does once it has committed, nothing being cached. */
  function Finish(op: Op): seq<Event> {
    match op
    case Create(_, _, _) => [EndSweep(1)]
    case Update(_, _) => [Delete(1, true), EndSweep(1)]
    case _ => [Delete(1, true)]
  }

  /** A reader takes the table's answer, a write replaces it and invalidates, the reader stores what it took; a later
      read gets it. */
  function Overtaken(key: Key, op: Op): seq<Event> {
    ([StartGet(key), LookUp(0, true), Fetch(0), StartWrite(op), Commit(1)] + Finish(op))
    + [Store(0, true), StartGet(key), LookUp(2, true)]
  }

  ghost predicate Leads(s: State, e: Event, t: State) {
    Enabled(s, e) && Next(s, e) == t
  }

  lemma {:induction false} RunThrough(states: seq<State>, evs: seq<Event>)
    requires |states| == |evs| + 1
    requires forall i :: 0 <= i < |evs| ==> Leads(states[i], evs[i], states[i + 1])
    ensures Executable(states[0], evs) && Run(states[0], evs) == states[|evs|]
    decreases |evs|
  {
    if evs != [] {
      var n := |evs| - 1;
      RunThrough(states[..n + 1], evs[..n]);
      assert Leads(states[n], evs[n], states[n + 1]);
    }
  }

  lemma {:induction false} RunJoin(s: State, evs: seq<Event>, more: seq<Event>)
    requires Executable(s, evs) && Executable(Run(s, evs), more)
    ensures Executable(s, evs + more) && Run(s, evs + more) == Run(Run(s, evs), more)
    decreases |more|
  {
    if more == [] {
      assert evs + more == evs;
    } else {
      var n := |more| - 1;
      var all := evs + more;
      assert all[..|all| - 1] == evs + more[..n] && all[|all| - 1] == more[n];
      RunJoin(s, evs, more[..n]);
    }
  }

  /** The reader has its answer, and the write stands at `phase`. */
  function Overtaking(tables: seq<Db>, key: Key, c: Copy, op: Op, phase: Phase): State
    requires Writes(op)
  {
    State(tables, map[], [Proc(key, Fetched(c), 0), Proc(ProductEntry(op.id), phase, 0)])
  }

  lemma {:induction false} WriterOvertakes(s: State, key: Key, op: Op, v: Value)
    requires Initial(s) && Writes(op) && Int32Op(op) && Answer(Now(s), key) == Some(v) && Succeeds(Now(s), op)
    ensures var evs := [StartGet(key), LookUp(0, true), Fetch(0), StartWrite(op), Commit(1)];
            && Executable(s, evs)
            && Run(s, evs) == Overtaking(s.tables + [DbStep(Now(s), op).0], key, Copy(v, 0), op,
                                         if op.Create? then Scanning else Deleting(op))
  {
    var evs := [StartGet(key), LookUp(0, true), Fetch(0), StartWrite(op), Commit(1)];
    var c := Copy(v, 0);
    var s1 := s.(procs := [Proc(key, Looking, 0)]);
    var s2 := s.(procs := [Proc(key, Missed, 0)]);
    var s3 := s.(procs := [Proc(key, Fetched(c), 0)]);
    var s4 := Overtaking(s.tables, key, c, op, Writing(op));
    var s5 := Overtaking(s.tables + [DbStep(Now(s), op).0], key, c, op, if op.Create? then Scanning else Deleting(op));
    assert Leads(s, StartGet(key), s1);
    assert Leads(s1, LookUp(0, true), s2);
    assert Leads(s2, Fetch(0), s3);
    assert Leads(s3, StartWrite(op), s4);
    assert Leads(s4, Commit(1), s5);
    RunThrough([s, s1, s2, s3, s4, s5], evs);
  }

  lemma {:induction false} WriterFinishes(tables: seq<Db>, key: Key, c: Copy, op: Op)
    requires tables != [] && Writes(op)
    ensures var t := Overtaking(tables, key, c, op, if op.Create? then Scanning else Deleting(op));
            Executable(t, Finish(op)) && Run(t, Finish(op)) == Overtaking(tables, key, c, op, Ended)
  {
    var d, w, n := Overtaking(tables, key, c, op, Deleting(op)), Overtaking(tables, key, c, op, Scanning),
                   Overtaking(tables, key, c, op, Ended);
    assert Leads(w, EndSweep(1), n);
    if op.Create? {
      RunThrough([w, n], Finish(op));
    } else if op.Update? {
      assert Leads(d, Delete(1, true), w);
      RunThrough([d, w, n], Finish(op));
    } else {
      assert Leads(d, Delete(1, true), n);
      RunThrough([d, n], Finish(op));
    }
  }

  lemma {:induction false} ReaderStoresLate(tables: seq<Db>, key: Key, c: Copy, op: Op)
    requires |tables| == 2 && Writes(op)
    ensures var t, evs := Overtaking(tables, key, c, op, Ended), [Store(0, true), StartGet(key), LookUp(2, true)];
            && Executable(t, evs)
            && Run(t, evs) == State(tables, map[key := c],
                 [Proc(key, Returned(c, true), 0), Proc(ProductEntry(op.id), Ended, 0),
                  Proc(key, Returned(c, false), 1)])
  {
    var r, w := Proc(key, Returned(c, true), 0), Proc(ProductEntry(op.id), Ended, 0);
    var s0 := Overtaking(tables, key, c, op, Ended);
    var s1 := State(tables, map[key := c], [r, w]);
    var s2 := State(tables, map[key := c], [r, w, Proc(key, Looking, 1)]);
    var s3 := State(tables, map[key := c], [r, w, Proc(key, Returned(c, false), 1)]);
    assert Leads(s0, Store(0, true), s1);
    assert Leads(s1, StartGet(key), s2);
    assert Leads(s2, LookUp(2, true), s3);
    RunThrough([s0, s1, s2, s3], [Store(0, true), StartGet(key), LookUp(2, true)]);
  }

  /** So the condition is needed: for every key and every write, with nothing failing and every call over, a read begun
      after the write had ended still returns the answer from before it. */
  lemma {:induction false} OvertakenReaderLeavesOldAnswer(s: State, key: Key, op: Op, v: Value)
    requires Initial(s) && Writes(op) && Int32Op(op) && Answer(Now(s), key) == Some(v) && Succeeds(Now(s), op)
    ensures Executable(s, Overtaken(key, op))
    ensures var t := Run(s, Overtaken(key, op));
            && t.procs == [Proc(key, Returned(Copy(v, 0), true), 0), Proc(ProductEntry(op.id), Ended, 0),
                           Proc(key, Returned(Copy(v, 0), false), 1)]
            && t.tables == s.tables + [DbStep(Now(s), op).0]
  {
    var first := [StartGet(key), LookUp(0, true), Fetch(0), StartWrite(op), Commit(1)];
    var tables := s.tables + [DbStep(Now(s), op).0];
    WriterOvertakes(s, key, op, v);
    WriterFinishes(tables, key, Copy(v, 0), op);
    RunJoin(s, first, Finish(op));
    ReaderStoresLate(tables, key, Copy(v, 0), op);
    RunJoin(s, first + Finish(op), [Store(0, true), StartGet(key), LookUp(2, true)]);
  }

  /** That answer is outdated for the product written, and for the first page after a creation: it misses the new
      product. */
  lemma {:induction false} OldAnswerIsOutdated(db: Db, op: Op, limit: nat)
    requires DbOk(db) && Writes(op) && Succeeds(db, op) && limit >= 1
    ensures Answer(DbStep(db, op).0, ProductEntry(op.id)) != Answer(db, ProductEntry(op.id))
    ensures op.Create? ==>
      var ps, qs := PageOf(db, limit, 0), PageOf(DbStep(db, op).0, limit, 0);
      && qs != [] && qs[0].id == op.id && !OnPage(ps, op.id)
      && Answer(DbStep(db, op).0, PageEntry(limit, 0)) != Answer(db, PageEntry(limit, 0))
  {
    WriteIsTimed(db, op);
    if op.Create? {
      DbStepKeepsDb(db, op);
      PageIsTheSlice(DbStep(db, op).0, limit, 0);
      NotListedYet(db, op.id, limit);
    }
  }

  lemma {:induction false} WriteIsTimed(db: Db, op: Op)
    requires Writes(op) && Succeeds(db, op)
    ensures op.id in DbStep(db, op).0.rows && DbStep(db, op).0.rows[op.id].updatedAt == db.now
    ensures op.Create? ==> op.id !in db.rows && DbStep(db, op).0.order == [op.id] + db.order
    ensures op.Create? ==> DbStep(db, op).0.rows[op.id].id == op.id
  {
  }

  lemma {:induction false} NotListedYet(db: Db, id: ProductId, limit: nat)
    requires DbOk(db) && id !in db.rows
    ensures !OnPage(PageOf(db, limit, 0), id)
  {
    PageIsTheSlice(db, limit, 0);
  }
}
