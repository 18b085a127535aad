/** The bounded channel in front of the product table, its single worker, and its many callers.
    Callers and worker interleave freely; a caller may stop waiting at any moment. */
module StockQueue {
  import opened Common
  import opened Int32
  import opened ProductDb

  const CAPACITY := 10000

  /** A request as it stands in the channel. `fault` foretells what the database does when its turn comes. */
  datatype Request = Request(product: ProductId, delta: int, fault: Fault, sender: nat)

  // ----- The sequential meaning: UpdateStockWithLock folded over channel order -----

  function Serve(t: StockTable, r: Request): (StockTable, StockResult) {
    LockedUpdate(t, r.product, r.delta, r.fault)
  }

  function Rows(t: StockTable, trace: seq<Request>): StockTable {
    if trace == [] then t else Serve(Rows(t, trace[..|trace| - 1]), trace[|trace| - 1]).0
  }

  /** What request `k` of the trace is told. */
  function Answer(t: StockTable, trace: seq<Request>, k: nat): StockResult
    requires k < |trace|
  {
    Serve(Rows(t, trace[..k]), trace[k]).1
  }

  // ----- The concurrent system -----

  datatype Phase = Offering | Awaiting | Returned(result: StockResult) | Abandoned

  /** A call of `UpdateStock`; `inbox` is its response channel and `seat` its place in channel order. */
  datatype Sender = Sender(request: Request, phase: Phase, inbox: seq<StockResult>, seat: nat)

  datatype Worker = Ready | Responding(sender: nat, result: StockResult)

  /** `trace` is history: every request ever put in the channel, in order. */
  datatype State = State(rows: StockTable, requests: seq<Request>, senders: seq<Sender>, worker: Worker,
                         trace: seq<Request>)

  datatype Event =
    | Call(product: ProductId, delta: int, fault: Fault)
    | Offer(i: nat)
    | CancelOffer(i: nat)
    | Receive
    | Respond
    | Collect(i: nat)
    | CancelWait(i: nat)

  predicate Enabled(s: State, e: Event) {
    match e
    case Call(_, _, _) => true
    case Offer(i) => i < |s.senders| && s.senders[i].phase.Offering? && |s.requests| < CAPACITY
    case CancelOffer(i) => i < |s.senders| && s.senders[i].phase.Offering?
    case Receive => s.worker.Ready? && s.requests != []
    case Respond => s.worker.Responding? && s.worker.sender < |s.senders| && |s.senders[s.worker.sender].inbox| < 1
    case Collect(i) => i < |s.senders| && s.senders[i].phase.Awaiting? && s.senders[i].inbox != []
    case CancelWait(i) => i < |s.senders| && s.senders[i].phase.Awaiting?
  }

  function Next(s: State, e: Event): State
    requires Enabled(s, e)
  {
    match e
    case Call(p, d, f) =>
      var i := |s.senders|;
      s.(senders := s.senders + [Sender(Request(p, d, f, i), Offering, [], 0)])
    case Offer(i) =>
      var c := s.senders[i];
      s.(requests := s.requests + [c.request],
         trace := s.trace + [c.request],
         senders := s.senders[i := c.(phase := Awaiting, seat := |s.trace|)])
    case CancelOffer(i) =>
      s.(senders := s.senders[i := s.senders[i].(phase := Abandoned)])
    case Receive =>
      var (t, r) := Serve(s.rows, s.requests[0]);
      s.(rows := t, requests := s.requests[1..], worker := Responding(s.requests[0].sender, r))
    case Respond =>
      var i := s.worker.sender;
      s.(senders := s.senders[i := s.senders[i].(inbox := s.senders[i].inbox + [s.worker.result])], worker := Ready)
    case Collect(i) =>
      var c := s.senders[i];
      s.(senders := s.senders[i := c.(phase := Returned(c.inbox[0]), inbox := c.inbox[1..])])
    case CancelWait(i) =>
      s.(senders := s.senders[i := s.senders[i].(phase := Abandoned)])
  }

  predicate Executable(s: State, evs: seq<Event>)
    decreases |evs|
  {
    evs == [] || (Enabled(s, evs[0]) && Executable(Next(s, evs[0]), evs[1..]))
  }

  function Run(s: State, evs: seq<Event>): State
    requires Executable(s, evs)
    decreases |evs|
  {
    if evs == [] then s else Run(Next(s, evs[0]), evs[1..])
  }

  function Initial(t: StockTable): State {
    State(t, [], [], Ready, [])
  }

  // ----- Invariant -----

  /** The responses a sender has been given: in its channel, or already taken out. */
  function Responses(c: Sender): seq<StockResult> {
    if c.phase.Returned? then c.inbox + [c.phase.result] else c.inbox
  }

  ghost function Served(s: State): int {
    |s.trace| - |s.requests|
  }

  ghost predicate Seated(s: State, i: nat)
    requires i < |s.senders|
  {
    s.senders[i].seat < |s.trace| && s.trace[s.senders[i].seat] == s.senders[i].request
  }

  /** The request at seat `k` belongs to a sender that knows its seat. */
  ghost predicate SeatTaken(s: State, k: nat)
    requires k < |s.trace|
  {
    var i := s.trace[k].sender;
    i < |s.senders| && s.senders[i].request == s.trace[k] && s.senders[i].seat == k && !s.senders[i].phase.Offering?
  }

  /** At most one response, given only to a served request, and it is the sequential one. */
  ghost predicate SenderOk(t0: StockTable, s: State, i: nat)
    requires i < |s.senders|
  {
    var c := s.senders[i];
    && c.request.sender == i
    && (c.phase.Offering? ==> c.inbox == [])
    && (c.phase.Awaiting? ==> Seated(s, i))
    && |Responses(c)| <= 1
    && (Responses(c) != [] ==>
        Seated(s, i) && c.seat < Served(s) && Responses(c)[0] == Answer(t0, s.trace, c.seat))
  }

  ghost predicate WorkerOk(t0: StockTable, s: State) {
    s.worker.Responding? ==>
      && 0 < Served(s) <= |s.trace|
      && s.worker.sender == s.trace[Served(s) - 1].sender
      && s.worker.sender < |s.senders|
      && s.worker.result == Answer(t0, s.trace, Served(s) - 1)
      && Responses(s.senders[s.worker.sender]) == []
  }

  ghost predicate Inv(t0: StockTable, s: State) {
    && 0 <= Served(s) && |s.requests| <= CAPACITY
    && s.requests == s.trace[Served(s)..]
    && s.rows == Rows(t0, s.trace[..Served(s)])
    && (forall k :: 0 <= k < |s.trace| ==> SeatTaken(s, k))
    && (forall i :: 0 <= i < |s.senders| ==> SenderOk(t0, s, i))
    && WorkerOk(t0, s)
  }

  lemma {:induction false} StepKeepsInv(t0: StockTable, s: State, e: Event)
    requires Inv(t0, s) && Enabled(s, e)
    ensures Inv(t0, Next(s, e))
  {
    match e
    case Offer(i) => OfferKeepsInv(t0, s, i);
    case Receive => ReceiveKeepsInv(t0, s);
    case Respond => RespondKeepsInv(t0, s);
    case Call(_, _, _) => CallKeepsInv(t0, s, e);
    case _ => CallerKeepsInv(t0, s, e, e.i);
  }

  lemma {:induction false} CallKeepsInv(t0: StockTable, s: State, e: Event)
    requires Inv(t0, s) && e.Call?
    ensures Inv(t0, Next(s, e))
  {
    var s' := Next(s, e);
    forall k | 0 <= k < |s'.trace| ensures SeatTaken(s', k) {
      assert SeatTaken(s, k);
    }
    forall j | 0 <= j < |s'.senders| ensures SenderOk(t0, s', j) {
      if j < |s.senders| {
        assert SenderOk(t0, s, j);
      }
    }
  }

  lemma {:induction false} CallerKeepsInv(t0: StockTable, s: State, e: Event, i: nat)
    requires Inv(t0, s) && Enabled(s, e) && e in {CancelOffer(i), Collect(i), CancelWait(i)}
    ensures Inv(t0, Next(s, e))
  {
    var c := Next(s, e).senders[i];
    assert SenderOk(t0, s, i);
    assert Responses(c) == Responses(s.senders[i]);
    SenderLeaves(t0, s, i, c);
    assert Next(s, e) == s.(senders := s.senders[i := c]);
  }

  /** A caller that returns or gives up keeps the responses it was given. */
  lemma {:induction false} SenderLeaves(t0: StockTable, s: State, i: nat, c: Sender)
    requires Inv(t0, s) && i < |s.senders| && (c.phase.Returned? || c.phase.Abandoned?)
    requires c.request == s.senders[i].request && c.seat == s.senders[i].seat
    requires Responses(c) == Responses(s.senders[i])
    ensures Inv(t0, s.(senders := s.senders[i := c]))
  {
    var s' := s.(senders := s.senders[i := c]);
    forall k | 0 <= k < |s'.trace| ensures SeatTaken(s', k) {
      assert SeatTaken(s, k);
    }
    forall j | 0 <= j < |s'.senders| ensures SenderOk(t0, s', j) {
      assert SenderOk(t0, s, j);
    }
  }

  /** Answers depend on earlier requests only. */
  lemma {:induction false} AnswersStay(t0: StockTable, trace: seq<Request>, r: Request, k: nat)
    requires k < |trace|
    ensures Answer(t0, trace + [r], k) == Answer(t0, trace, k)
  {
    assert (trace + [r])[..k] == trace[..k];
  }

  lemma {:induction false} OfferKeepsInv(t0: StockTable, s: State, i: nat)
    requires Inv(t0, s) && Enabled(s, Offer(i))
    ensures Inv(t0, Next(s, Offer(i)))
  {
    var s' := Next(s, Offer(i));
    var n := Served(s);
    assert SenderOk(t0, s, i);
    assert s'.trace[..n] == s.trace[..n];
    assert s'.requests == s'.trace[n..];
    if s.worker.Responding? {
      AnswersStay(t0, s.trace, s.senders[i].request, n - 1);
    }
    forall k | 0 <= k < |s'.trace| ensures SeatTaken(s', k) {
      if k < |s.trace| {
        assert SeatTaken(s, k);
      }
    }
    forall j | 0 <= j < |s'.senders| ensures SenderOk(t0, s', j) {
      OfferKeepsSender(t0, s, i, j);
    }
  }

  lemma {:induction false} OfferKeepsSender(t0: StockTable, s: State, i: nat, j: nat)
    requires Enabled(s, Offer(i)) && j < |s.senders| && SenderOk(t0, s, j) && 0 <= Served(s)
    ensures SenderOk(t0, Next(s, Offer(i)), j)
  {
    if s.senders[j].seat < |s.trace| {
      AnswersStay(t0, s.trace, s.senders[i].request, s.senders[j].seat);
    }
  }

  lemma {:induction false} ReceiveKeepsInv(t0: StockTable, s: State)
    requires Inv(t0, s) && Enabled(s, Receive)
    ensures Inv(t0, Next(s, Receive))
  {
    var s' := Next(s, Receive);
    var n := Served(s);
    assert s.requests[0] == s.trace[n];
    assert s.trace[..n + 1][..n] == s.trace[..n];
    assert s'.requests == s.trace[n + 1..];
    assert SeatTaken(s, n);
    assert SenderOk(t0, s, s.trace[n].sender);
    forall k | 0 <= k < |s'.trace| ensures SeatTaken(s', k) {
      assert SeatTaken(s, k);
    }
    forall i | 0 <= i < |s'.senders| ensures SenderOk(t0, s', i) {
      assert SenderOk(t0, s, i);
    }
  }

  lemma {:induction false} RespondKeepsInv(t0: StockTable, s: State)
    requires Inv(t0, s) && Enabled(s, Respond)
    ensures Inv(t0, Next(s, Respond))
  {
    var s' := Next(s, Respond);
    assert SeatTaken(s, Served(s) - 1);
    forall k | 0 <= k < |s'.trace| ensures SeatTaken(s', k) {
      assert SeatTaken(s, k);
    }
    forall i | 0 <= i < |s'.senders| ensures SenderOk(t0, s', i) {
      assert SenderOk(t0, s, i);
    }
  }

  lemma {:induction false} RunKeepsInv(t0: StockTable, s: State, evs: seq<Event>)
    requires Inv(t0, s) && Executable(s, evs)
    ensures Inv(t0, Run(s, evs))
    ensures s.trace <= Run(s, evs).trace
    decreases |evs|
  {
    if evs != [] {
      StepKeepsInv(t0, s, evs[0]);
      RunKeepsInv(t0, Next(s, evs[0]), evs[1..]);
    }
  }

  /** The requests of the calls made in a run, in the order of the calls; callers are numbered from `n`. */
  function Asked(evs: seq<Event>, n: nat): seq<Request>
    decreases |evs|
  {
    if evs == [] then []
    else
      match evs[0]
      case Call(p, d, f) => [Request(p, d, f, n)] + Asked(evs[1..], n + 1)
      case _ => Asked(evs[1..], n)
  }

  function RequestsOf(senders: seq<Sender>): seq<Request> {
    seq(|senders|, i requires 0 <= i < |senders| => senders[i].request)
  }

  lemma {:induction false} StepKeepsRequests(s: State, e: Event)
    requires Enabled(s, e)
    ensures RequestsOf(Next(s, e).senders) == RequestsOf(s.senders) + Asked([e], |s.senders|)
  {
    assert [e][1..] == [];
  }

  /** Callers stay who they are: each goes on with the request it was called for. */
  lemma {:induction false} RequestsStay(s: State, evs: seq<Event>)
    requires Executable(s, evs)
    ensures RequestsOf(Run(s, evs).senders) == RequestsOf(s.senders) + Asked(evs, |s.senders|)
    decreases |evs|
  {
    if evs != [] {
      var s' := Next(s, evs[0]);
      StepKeepsRequests(s, evs[0]);
      RequestsStay(s', evs[1..]);
      assert [evs[0]][1..] == [];
      assert |RequestsOf(s'.senders)| == |s'.senders|;
      assert Asked(evs, |s.senders|) == Asked([evs[0]], |s.senders|) + Asked(evs[1..], |s'.senders|);
    }
  }

  // ----- Main results -----

  /** Every run linearises: callers ask for what they were called for, the table is the fold of the served requests in
      channel order, every caller that got an answer got the one the fold gives at its seat, seats follow the order of
      arrival in the channel, and no caller ever has more than one response. */
  lemma {:induction false} QueueLinearises(t0: StockTable, evs: seq<Event>)
    requires Executable(Initial(t0), evs)
    ensures var s := Run(Initial(t0), evs);
            && RequestsOf(s.senders) == Asked(evs, 0)
            && 0 <= Served(s) <= |s.trace|
            && s.requests == s.trace[Served(s)..]
            && s.rows == Rows(t0, s.trace[..Served(s)])
            && (forall i :: 0 <= i < |s.senders| && s.senders[i].phase.Returned? ==>
                  && Seated(s, i)
                  && s.senders[i].phase.result == Answer(t0, s.trace, s.senders[i].seat)
                  && s.senders[i].inbox == [])
            && (forall i :: 0 <= i < |s.senders| ==> |Responses(s.senders[i])| <= 1)
            && (forall j, k :: 0 <= j < k < |s.trace| ==> s.trace[j].sender != s.trace[k].sender)
  {
    RunKeepsInv(t0, Initial(t0), evs);
    RequestsStay(Initial(t0), evs);
    InvLinearises(t0, Run(Initial(t0), evs));
  }

  lemma {:induction false} InvLinearises(t0: StockTable, s: State)
    requires Inv(t0, s)
    ensures forall i :: 0 <= i < |s.senders| && s.senders[i].phase.Returned? ==>
              && Seated(s, i)
              && s.senders[i].phase.result == Answer(t0, s.trace, s.senders[i].seat)
              && s.senders[i].inbox == []
    ensures forall i :: 0 <= i < |s.senders| ==> |Responses(s.senders[i])| <= 1
    ensures forall j, k :: 0 <= j < k < |s.trace| ==> s.trace[j].sender != s.trace[k].sender
  {
    forall i | 0 <= i < |s.senders|
      ensures |Responses(s.senders[i])| <= 1
      ensures s.senders[i].phase.Returned? ==>
        && Seated(s, i)
        && s.senders[i].phase.result == Answer(t0, s.trace, s.senders[i].seat)
        && s.senders[i].inbox == []
    {
      assert SenderOk(t0, s, i);
    }
    forall j, k | 0 <= j < k < |s.trace| ensures s.trace[j].sender != s.trace[k].sender {
      assert SeatTaken(s, j) && SeatTaken(s, k);
    }
  }

  /** The worker never blocks: whatever callers did, it can always take the step it is at, unless the channel is
      empty. In particular a response channel of capacity one always has room, even for a caller that left. */
  lemma {:induction false} WorkerNeverBlocks(t0: StockTable, evs: seq<Event>)
    requires Executable(Initial(t0), evs)
    ensures var s := Run(Initial(t0), evs);
            Enabled(s, Respond) || Enabled(s, Receive) || (s.worker.Ready? && s.requests == [])
  {
    RunKeepsInv(t0, Initial(t0), evs);
  }

  // ----- Nobody is forgotten -----

  /** Request `k` is being responded to. */
  predicate BeingAnswered(s: State, k: nat) {
    s.worker.Responding? && k == |s.trace| - |s.requests| - 1
  }

  ghost predicate HasResponse(s: State, k: nat)
    requires k < |s.trace|
  {
    s.trace[k].sender < |s.senders| && Responses(s.senders[s.trace[k].sender]) != []
  }

  /** Every request served has its response, or is just being responded to. */
  ghost predicate NoneForgotten(s: State) {
    forall k :: 0 <= k < Served(s) && k < |s.trace| && !BeingAnswered(s, k) ==> HasResponse(s, k)
  }

  lemma {:induction false} StepForgetsNone(t0: StockTable, s: State, e: Event)
    requires Inv(t0, s) && NoneForgotten(s) && Enabled(s, e)
    ensures NoneForgotten(Next(s, e))
  {
    var s' := Next(s, e);
    forall k | 0 <= k < Served(s') && k < |s'.trace| && !BeingAnswered(s', k) ensures HasResponse(s', k) {
      assert SeatTaken(s, k) && SenderOk(t0, s, s.trace[k].sender);
      assert !BeingAnswered(s, k) ==> HasResponse(s, k);
    }
  }

  lemma {:induction false} RunForgetsNone(t0: StockTable, s: State, evs: seq<Event>)
    requires Inv(t0, s) && NoneForgotten(s) && Executable(s, evs)
    ensures Inv(t0, Run(s, evs)) && NoneForgotten(Run(s, evs))
    decreases |evs|
  {
    if evs != [] {
      StepKeepsInv(t0, s, evs[0]);
      StepForgetsNone(t0, s, evs[0]);
      RunForgetsNone(t0, Next(s, evs[0]), evs[1..]);
    }
  }

  lemma {:induction false} FirstThen(s: State, e: Event, evs: seq<Event>)
    requires Enabled(s, e) && Executable(Next(s, e), evs)
    ensures Executable(s, [e] + evs) && Run(s, [e] + evs) == Run(Next(s, e), evs)
  {
    assert ([e] + evs)[1..] == evs;
  }

  /** Whoever still waits in a reachable state gets its answer, the one of its seat, by steps of the worker and of its
      own alone; nobody else needs to move. */
  lemma {:induction false} AnswerComes(t0: StockTable, s: State, i: nat) returns (evs: seq<Event>)
    requires Inv(t0, s) && NoneForgotten(s) && i < |s.senders| && s.senders[i].phase.Awaiting?
    ensures forall k :: 0 <= k < |evs| ==> evs[k] in {Receive, Respond, Collect(i)}
    ensures s.senders[i].seat < |s.trace| && Executable(s, evs)
    ensures i < |Run(s, evs).senders|
    ensures Run(s, evs).senders[i].phase == Returned(Answer(t0, s.trace, s.senders[i].seat))
    decreases |s.requests|, if s.worker.Responding? then 1 else 0
  {
    assert SenderOk(t0, s, i);
    if s.senders[i].inbox != [] {
      evs := [Collect(i)];
      FirstThen(s, Collect(i), []);
    } else {
      var e := if s.worker.Responding? then Respond else Receive;
      assert s.worker.Ready? ==> s.requests != [] by {
        assert s.worker.Ready? ==> !BeingAnswered(s, s.senders[i].seat);
        assert SeatTaken(s, s.senders[i].seat);
      }
      StepKeepsInv(t0, s, e);
      StepForgetsNone(t0, s, e);
      var rest := AnswerComes(t0, Next(s, e), i);
      FirstThen(s, e, rest);
      evs := [e] + rest;
    }
  }

  /** From every reachable state every waiting caller can still be answered. */
  lemma {:induction false} EveryWaiterCanBeAnswered(t0: StockTable, evs: seq<Event>, i: nat) returns (more: seq<Event>)
    requires Executable(Initial(t0), evs)
    requires i < |Run(Initial(t0), evs).senders| && Run(Initial(t0), evs).senders[i].phase.Awaiting?
    ensures var s := Run(Initial(t0), evs);
            && (forall k :: 0 <= k < |more| ==> more[k] in {Receive, Respond, Collect(i)})
            && s.senders[i].seat < |s.trace| && Executable(s, more)
            && i < |Run(s, more).senders|
            && Run(s, more).senders[i].phase == Returned(Answer(t0, s.trace, s.senders[i].seat))
  {
    RunForgetsNone(t0, Initial(t0), evs);
    more := AnswerComes(t0, Run(Initial(t0), evs), i);
  }

  // ----- First come, first served -----

  /** Units of `p` that the first `k` requests of the trace took. */
  ghost function Taken(t: StockTable, trace: seq<Request>, p: ProductId, k: nat): int
    requires k <= |trace|
  {
    if k == 0 then 0
    else Taken(t, trace, p, k - 1)
         + (if trace[k - 1].product == p && Answer(t, trace, k - 1).Updated? then -trace[k - 1].delta else 0)
  }

  /** Earlier requests for `p`, whatever they got. */
  ghost function Earlier(trace: seq<Request>, p: ProductId, k: nat): nat
    requires k <= |trace|
  {
    if k == 0 then 0 else Earlier(trace, p, k - 1) + (if trace[k - 1].product == p then 1 else 0)
  }

  /** Only decrements of `p`, and no database fault on them; other products do as they please. */
  ghost predicate OnlySells(trace: seq<Request>, p: ProductId) {
    forall k :: 0 <= k < |trace| ==>
      InRange(trace[k].delta) && (trace[k].product == p ==> trace[k].delta < 0 && trace[k].fault.NoFault?)
  }

  lemma {:induction false} RowsTrackTaken(t: StockTable, trace: seq<Request>, p: ProductId, k: nat)
    requires ValidTable(t) && p in t && OnlySells(trace, p) && k <= |trace|
    ensures var u := Rows(t, trace[..k]); ValidTable(u) && p in u && u[p] == t[p] - Taken(t, trace, p, k)
  {
    if k > 0 {
      RowsTrackTaken(t, trace, p, k - 1);
      assert trace[..k][..k - 1] == trace[..k - 1];
      var r := trace[k - 1];
      LockedUpdateIsExact(Rows(t, trace[..k - 1]), r.product, r.delta, r.fault);
    }
  }

  /** Request `k` succeeds if and only if its quantity fits what earlier accepted requests left. */
  lemma {:induction false} FirstComeFirstServed(t: StockTable, trace: seq<Request>, p: ProductId, k: nat)
    requires ValidTable(t) && p in t && OnlySells(trace, p)
    requires k < |trace| && trace[k].product == p
    ensures Answer(t, trace, k).Updated? <==> -trace[k].delta <= t[p] - Taken(t, trace, p, k)
    ensures !Answer(t, trace, k).Updated? ==> Answer(t, trace, k).Insufficient?
  {
    RowsTrackTaken(t, trace, p, k);
    LockedUpdateIsExact(Rows(t, trace[..k]), p, trace[k].delta, trace[k].fault);
  }

  lemma {:induction false} UnitsTaken(t: StockTable, trace: seq<Request>, p: ProductId, k: nat)
    requires ValidTable(t) && p in t && OnlySells(trace, p) && k <= |trace|
    requires forall j :: 0 <= j < |trace| && trace[j].product == p ==> trace[j].delta == -1
    ensures Taken(t, trace, p, k) == if Earlier(trace, p, k) <= t[p] then Earlier(trace, p, k) else t[p]
  {
    if k > 0 {
      UnitsTaken(t, trace, p, k - 1);
      if trace[k - 1].product == p {
        FirstComeFirstServed(t, trace, p, k - 1);
      }
    }
  }

  /** With one unit a request, exactly the first `stock` requests for the product in channel order succeed. */
  lemma {:induction false} FirstBuyersWin(t: StockTable, trace: seq<Request>, p: ProductId, k: nat)
    requires ValidTable(t) && p in t && OnlySells(trace, p)
    requires forall j :: 0 <= j < |trace| && trace[j].product == p ==> trace[j].delta == -1
    requires k < |trace| && trace[k].product == p
    ensures Answer(t, trace, k).Updated? <==> Earlier(trace, p, k) < t[p]
  {
    UnitsTaken(t, trace, p, k);
    FirstComeFirstServed(t, trace, p, k);
  }

  // ----- The worker's loop -----

  /** What happens next at the channel: a caller offers a request, or the worker takes its turn. */
  datatype Turn = Offers(request: Request) | Serves

  function Offered(turns: seq<Turn>): seq<Request> {
    if turns == [] then []
    else (if turns[0].Offers? then [turns[0].request] else []) + Offered(turns[1..])
  }

  /** All requests ever in the channel, and how many of them are served, after one turn. A full channel takes no more;
      the worker waits at an empty one. */
  function Turned(all: seq<Request>, served: nat, t: Turn): (r: (seq<Request>, nat))
    requires served <= |all|
    ensures all <= r.0 && served <= r.1 <= |r.0|
  {
    match t
    case Offers(r) => (if |all| - served < CAPACITY then all + [r] else all, served)
    case Serves => (all, if served < |all| then served + 1 else served)
  }

  function After(all: seq<Request>, served: nat, turns: seq<Turn>): (r: (seq<Request>, nat))
    requires served <= |all|
    ensures all <= r.0 && served <= r.1 <= |r.0|
    decreases |turns|
  {
    if turns == [] then (all, served)
    else After(Turned(all, served, turns[0]).0, Turned(all, served, turns[0]).1, turns[1..])
  }

  // ----- What the worker gets to -----

  /** How often the worker takes its turn. */
  function Rounds(turns: seq<Turn>): nat {
    if turns == [] then 0 else (if turns[0].Serves? then 1 else 0) + Rounds(turns[1..])
  }

  /** It serves one request a turn as long as there is one, and never more. */
  lemma {:induction false} OneRequestARound(all: seq<Request>, n: nat, turns: seq<Turn>)
    requires n <= |all|
    ensures Min(|all|, n + Rounds(turns)) <= After(all, n, turns).1 <= n + Rounds(turns)
    decreases |turns|
  {
    if turns != [] {
      var (all', n') := Turned(all, n, turns[0]);
      OneRequestARound(all', n', turns[1..]);
    }
  }

  lemma {:induction false} AfterBoth(all: seq<Request>, n: nat, turns: seq<Turn>, more: seq<Turn>)
    requires n <= |all|
    ensures var r := After(all, n, turns); After(all, n, turns + more) == After(r.0, r.1, more)
    decreases |turns|
  {
    if turns == [] {
      assert turns + more == more;
    } else {
      var (all', n') := Turned(all, n, turns[0]);
      assert (turns + more)[1..] == turns[1..] + more;
      AfterBoth(all', n', turns[1..], more);
    }
  }

  /** A request that stands at place `j` of the channel after `i` turns is served by the end if and only if the worker
      has taken more than `j` turns since: first come, first served, and nobody is left out. */
  lemma {:induction false} ServedInTurnIff(all: seq<Request>, n: nat, turns: seq<Turn>, i: nat, j: nat)
    requires n <= |all| && i <= |turns|
    requires var r := After(all, n, turns[..i]); j < |r.0| - r.1
    ensures var r, last := After(all, n, turns[..i]), After(all, n, turns);
            && r.0 <= last.0
            && (r.1 + j < last.1 <==> j < Rounds(turns[i..]))
  {
    var r := After(all, n, turns[..i]);
    assert turns == turns[..i] + turns[i..];
    AfterBoth(all, n, turns[..i], turns[i..]);
    OneRequestARound(r.0, r.1, turns[i..]);
  }

  /** A request offered at turn `i` enters at the end of the channel if and only if the channel is not full. */
  lemma {:induction false} AdmittedIffRoom(all: seq<Request>, n: nat, turns: seq<Turn>, i: nat)
    requires n <= |all| && i < |turns| && turns[i].Offers?
    ensures var r, r' := After(all, n, turns[..i]), After(all, n, turns[..i + 1]);
            && r'.1 == r.1 && r.0 <= r'.0
            && (|r'.0| > |r.0| <==> |r.0| - r.1 < CAPACITY)
            && (|r'.0| > |r.0| ==> r'.0 == r.0 + [turns[i].request])
  {
    assert turns[..i + 1] == turns[..i] + [turns[i]];
    AfterBoth(all, n, turns[..i], [turns[i]]);
    var r := After(all, n, turns[..i]);
    assert [turns[i]][1..] == [];
    assert After(r.0, r.1, [turns[i]]) == Turned(r.0, r.1, turns[i]);
  }

  lemma {:induction false} NeverOverfull(all: seq<Request>, n: nat, turns: seq<Turn>)
    requires n <= |all| && |all| - n <= CAPACITY
    ensures |After(all, n, turns).0| - After(all, n, turns).1 <= CAPACITY
    decreases |turns|
  {
    if turns != [] {
      NeverOverfull(Turned(all, n, turns[0]).0, Turned(all, n, turns[0]).1, turns[1..]);
    }
  }

  /** Where the channel cannot overflow every request offered is admitted. */
  lemma {:induction false} AllAdmitted(all: seq<Request>, n: nat, turns: seq<Turn>)
    requires n <= |all| && |all| - n + |Offered(turns)| <= CAPACITY
    ensures After(all, n, turns).0 == all + Offered(turns)
    decreases |turns|
  {
    if turns != [] {
      AllAdmitted(Turned(all, n, turns[0]).0, Turned(all, n, turns[0]).1, turns[1..]);
      if turns[0].Offers? {
        assert Offered(turns) == [turns[0].request] + Offered(turns[1..]);
      } else {
        assert Offered(turns) == Offered(turns[1..]);
      }
    }
  }

  /** The last `m` turns are the worker's. */
  predicate EndsServing(turns: seq<Turn>, m: nat) {
    m <= |turns| && forall i :: |turns| - m <= i < |turns| ==> turns[i].Serves?
  }

  lemma {:induction false} OnlyRounds(turns: seq<Turn>)
    requires forall i :: 0 <= i < |turns| ==> turns[i].Serves?
    ensures Rounds(turns) == |turns| && Offered(turns) == []
  {
    if turns != [] {
      OnlyRounds(turns[1..]);
    }
  }

  /** Enough turns of the worker at the end empty the channel. */
  lemma {:induction false} EndsEmpty(all: seq<Request>, n: nat, turns: seq<Turn>, m: nat)
    requires n <= |all| && EndsServing(turns, m)
    requires var r := After(all, n, turns[..|turns| - m]); |r.0| - r.1 <= m <= CAPACITY
    ensures After(all, n, turns).1 == |After(all, n, turns).0|
  {
    var a, b := turns[..|turns| - m], turns[|turns| - m..];
    var r := After(all, n, a);
    assert turns == a + b;
    AfterBoth(all, n, a, b);
    OnlyRounds(b);
    OneRequestARound(r.0, r.1, b);
    AllAdmitted(r.0, r.1, b);
  }

  lemma {:induction false} EndsEmptyAnyway(all: seq<Request>, turns: seq<Turn>)
    requires |all| <= CAPACITY && EndsServing(turns, CAPACITY)
    ensures After(all, 0, turns).1 == |After(all, 0, turns).0|
  {
    NeverOverfull(all, 0, turns[..|turns| - CAPACITY]);
    EndsEmpty(all, 0, turns, CAPACITY);
  }

  lemma {:induction false} EndsWithAllServed(all: seq<Request>, turns: seq<Turn>)
    requires |all| + |Offered(turns)| <= CAPACITY && EndsServing(turns, |all| + |Offered(turns)|)
    ensures After(all, 0, turns) == (all + Offered(turns), |all + Offered(turns)|)
  {
    var m := |all| + |Offered(turns)|;
    var a, b := turns[..|turns| - m], turns[|turns| - m..];
    assert turns == a + b;
    AfterBoth(all, 0, a, b);
    AllAdmitted(all, 0, turns);
    EndsEmpty(all, 0, turns, m);
  }

  /** Each call has a response channel of its own. */
  ghost predicate OwnChannels(rs: seq<Request>) {
    forall j, k :: 0 <= j < k < |rs| ==> rs[j].sender != rs[k].sender
  }

  class Channel {
    const repo: DBRepository
    var requests: seq<Request>
    var responses: map<nat, StockResult>

    constructor (repo: DBRepository)
      ensures this.repo == repo && requests == [] && responses == map[]
    {
      this.repo := repo;
      requests := [];
      responses := map[];
    }

    /** The non-blocking half of the send: refused when the buffer is full. */
    method Offer(r: Request) returns (ok: bool)
      modifies this`requests
      ensures ok == (|old(requests)| < CAPACITY)
      ensures requests == if ok then old(requests) + [r] else old(requests)
    {
      ok := |requests| < CAPACITY;
      if ok {
        requests := requests + [r];
      }
    }

    /** Of all requests there were, `n` are served, and the rest are in the channel. */
    ghost predicate Serving(rows0: StockTable, responses0: map<nat, StockResult>, all: seq<Request>, n: nat)
      reads this, repo
    {
      && n <= |all| && requests == all[n..]
      && repo.rows == Rows(rows0, all[..n])
      && Answered(rows0, all, n)
      && OthersKept(responses0, all)
    }

    method OfferOne(ghost rows0: StockTable, ghost responses0: map<nat, StockResult>, ghost all: seq<Request>,
                    ghost n: nat, r: Request)
      returns (ok: bool)
      requires Serving(rows0, responses0, all, n)
      modifies this`requests
      ensures ok == (|all| - n < CAPACITY)
      ensures Serving(rows0, responses0, if ok then all + [r] else all, n)
    {
      ok := Offer(r);
      if ok {
        assert (all + [r])[..n] == all[..n] && (all + [r])[n..] == all[n..] + [r];
        AnswersKept(rows0, all, r, n);
        OthersStillKept(responses0, all, r);
      }
    }

    method ServeOne(ghost rows0: StockTable, ghost responses0: map<nat, StockResult>, ghost all: seq<Request>,
                    ghost n: nat)
      requires Serving(rows0, responses0, all, n) && n < |all| && OwnChannels(all)
      modifies this`requests, this`responses, repo
      ensures Serving(rows0, responses0, all, n + 1)
    {
      var req := requests[0];
      requests := requests[1..];
      assert all[..n + 1][..n] == all[..n];
      var row := repo.UpdateStockWithLock(req.product, req.delta, req.fault);
      responses := responses[req.sender := row];
    }

    /** The worker from an idle moment on, for as long as it runs, while callers offer requests: every request it gets
        to is answered, in channel order. It may be shut down after any turn. It gets to one request a turn, so those
        it finds in the channel are answered in as many turns as there are; when its last turns are as many as the
        channel can hold it leaves the channel empty; and as long as the channel cannot overflow, every request
        offered is then answered and the table is their fold. */
    method Worker(turns: seq<Turn>)
      requires OwnChannels(requests + Offered(turns))
      modifies this`requests, this`responses, repo
      ensures var (all, n) := After(old(requests), 0, turns);
              && requests == all[n..]
              && repo.rows == Rows(old(repo.rows), all[..n])
              && Answered(old(repo.rows), all, n)
              && OthersKept(old(responses), all)
      ensures Answered(old(repo.rows), old(requests), Min(|old(requests)|, Rounds(turns)))
      ensures |old(requests)| <= CAPACITY && EndsServing(turns, CAPACITY) ==> requests == []
      ensures var offered := old(requests) + Offered(turns);
              |offered| <= CAPACITY && EndsServing(turns, |offered|) ==>
                && requests == []
                && repo.rows == Rows(old(repo.rows), offered)
                && Answered(old(repo.rows), offered, |offered|)
    {
      ghost var all, rows0, responses0 := requests, repo.rows, responses;
      ghost var n: nat := 0;
      for i := 0 to |turns|
        invariant Serving(rows0, responses0, all, n)
        invariant After(all, n, turns[i..]) == After(old(requests), 0, turns)
        invariant OwnChannels(all + Offered(turns[i..]))
      {
        assert turns[i..][1..] == turns[i + 1..];
        OwnChannelsPrefix(all, Offered(turns[i..]));
        OwnChannelsNext(all, n, turns[i], Offered(turns[i + 1..]));
        TakeTurn(rows0, responses0, all, n, turns[i]);
        all, n := Turned(all, n, turns[i]).0, Turned(all, n, turns[i]).1;
      }
      assert turns[|turns|..] == [];
      assert (all, n) == After(old(requests), 0, turns);
      WorkerEnds(rows0, responses0, old(requests), turns);
    }

    lemma {:induction false} WorkerEnds(rows0: StockTable, responses0: map<nat, StockResult>, first: seq<Request>,
                                        turns: seq<Turn>)
      requires Serving(rows0, responses0, After(first, 0, turns).0, After(first, 0, turns).1)
      ensures Answered(rows0, first, Min(|first|, Rounds(turns)))
      ensures |first| <= CAPACITY && EndsServing(turns, CAPACITY) ==> requests == []
      ensures var offered := first + Offered(turns);
              |offered| <= CAPACITY && EndsServing(turns, |offered|) ==>
                requests == [] && repo.rows == Rows(rows0, offered) && Answered(rows0, offered, |offered|)
    {
      var (all, n) := After(first, 0, turns);
      OneRequestARound(first, 0, turns);
      AnsweredFromStart(rows0, first, all, Min(|first|, Rounds(turns)), n);
      if |first| <= CAPACITY && EndsServing(turns, CAPACITY) {
        EndsEmptyAnyway(first, turns);
      }
      if |first + Offered(turns)| <= CAPACITY && EndsServing(turns, |first + Offered(turns)|) {
        EndsWithAllServed(first, turns);
        assert all[..n] == all;
      }
    }

    lemma {:induction false} AnsweredFromStart(rows0: StockTable, first: seq<Request>, all: seq<Request>, k: nat,
                                               n: nat)
      requires k <= |first| && first <= all && k <= n <= |all| && Answered(rows0, all, n)
      ensures Answered(rows0, first, k)
    {
      forall j | 0 <= j < k ensures all[j] == first[j] && Answer(rows0, all, j) == Answer(rows0, first, j) {
        assert all[..j] == first[..j];
      }
    }

    method TakeTurn(ghost rows0: StockTable, ghost responses0: map<nat, StockResult>, ghost all: seq<Request>,
                    ghost n: nat, t: Turn)
      requires Serving(rows0, responses0, all, n) && OwnChannels(all)
      modifies this`requests, this`responses, repo
      ensures Serving(rows0, responses0, Turned(all, n, t).0, Turned(all, n, t).1)
    {
      match t
      case Offers(r) =>
        var _ := OfferOne(rows0, responses0, all, n, r);
      case Serves =>
        if requests != [] {
          ServeOne(rows0, responses0, all, n);
        }
    }

    static lemma {:induction false} OwnChannelsNext(all: seq<Request>, n: nat, t: Turn, later: seq<Request>)
      requires n <= |all| && OwnChannels(all + ((if t.Offers? then [t.request] else []) + later))
      ensures OwnChannels(Turned(all, n, t).0 + later)
    {
      match t
      case Offers(r) =>
        assert all + ([r] + later) == (all + [r]) + later;
        OwnChannelsWithout(all, r, later);
      case Serves =>
        assert [] + later == later;
    }

    static lemma {:induction false} OwnChannelsPrefix(all: seq<Request>, later: seq<Request>)
      requires OwnChannels(all + later)
      ensures OwnChannels(all)
    {
      assert forall k :: 0 <= k < |all| ==> (all + later)[k] == all[k];
    }

    static lemma {:induction false} OwnChannelsWithout(all: seq<Request>, r: Request, later: seq<Request>)
      requires OwnChannels((all + [r]) + later)
      ensures OwnChannels(all + later)
    {
      var with := (all + [r]) + later;
      forall j, k | 0 <= j < k < |all + later| ensures (all + later)[j].sender != (all + later)[k].sender {
        var j', k' := if j < |all| then j else j + 1, if k < |all| then k else k + 1;
        assert (all + later)[j] == with[j'] && (all + later)[k] == with[k'];
      }
    }

    lemma {:induction false} OthersStillKept(responses0: map<nat, StockResult>, all: seq<Request>, r: Request)
      requires OthersKept(responses0, all)
      ensures OthersKept(responses0, all + [r])
    {
      forall i, k | Untouched(all + [r], i) && 0 <= k < |all| ensures all[k].sender != i {
        assert (all + [r])[k] == all[k];
      }
    }

    lemma {:induction false} AnswersKept(rows0: StockTable, all: seq<Request>, r: Request, n: nat)
      requires n <= |all| && Answered(rows0, all, n)
      ensures Answered(rows0, all + [r], n)
    {
      forall k | 0 <= k < n
        ensures (all + [r])[k] == all[k] && Answer(rows0, all + [r], k) == Answer(rows0, all, k)
      {
        AnswersStay(rows0, all, r, k);
      }
    }

    /** The first `n` requests have their sequential answers in their response channels. */
    ghost predicate Answered(rows0: StockTable, all: seq<Request>, n: nat)
      requires n <= |all|
      reads this`responses
    {
      forall k :: 0 <= k < n ==> all[k].sender in responses && responses[all[k].sender] == Answer(rows0, all, k)
    }

    /** Response channels of earlier calls are left alone. */
    ghost predicate OthersKept(responses0: map<nat, StockResult>, all: seq<Request>)
      reads this`responses
    {
      forall i :: i in responses0 && Untouched(all, i) ==> i in responses && responses[i] == responses0[i]
    }

    static ghost predicate Untouched(all: seq<Request>, i: nat) {
      forall k :: 0 <= k < |all| ==> all[k].sender != i
    }
  }
}
