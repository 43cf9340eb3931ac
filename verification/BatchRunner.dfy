/**
 The runner around the queue of batches (batcher.rs): one step for each thing that can happen to it,
 and what holds in every state it can reach.
 */
module BatchRunner {
  import opened Wrappers

  import opened JoinSet
  import opened Batcher

  const CHANNEL_CAPACITY: nat := 10

  /** The reply to a batch: one answer per item, or an error for the whole call. */
  type Reply = Result<seq<Output>, nat>

  /** What a caller's reply channel ends with. */
  datatype Outcome = Item(value: Output) | Failed(error: nat) | Dropped

  datatype State = State(
    now: nat,
    window: nat,
    channel: seq<Request>,
    pending: seq<Batch>,
    inFlight: seq<seq<Waiting>>,
    done: map<nat, Outcome>,
    // history
    admitted: map<nat, Request>,
    received: seq<Waiting>,
    fired: seq<Waiting>)

  datatype Event =
    | Tick(dt: nat)
    | Submit(req: Request, direct: Result<Output, nat>)  // `direct` is used when the request cannot be batched
    | Receive
    | Fire
    | Poll(polls: seq<Option<Reply>>)

  // ---------- answering a batch ----------

  function OutcomeOf(direct: Result<Output, nat>): Outcome {
    match direct
    case Ok(v) => Item(v)
    case Err(e) => Failed(e)
  }

  /** The positional zip: the caller at place `k` gets the answer at place `k`, or loses its channel. */
  function OutcomeAt(reply: Reply, k: nat): Outcome {
    match reply
    case Err(e) => Failed(e)
    case Ok(items) => if k < |items| then Item(items[k]) else Dropped
  }

  /** The outcomes of the first `k` callers. */
  function Deliver(ids: seq<nat>, k: nat, reply: Reply): map<nat, Outcome>
    requires k <= |ids|
  {
    if k == 0 then map[] else Deliver(ids, k - 1, reply)[ids[k - 1] := OutcomeAt(reply, k - 1)]
  }

  /** Callers have a channel each, so caller `k` gets what is at place `k`, however many callers there are. */
  lemma {:induction false} DeliverAt(ids: seq<nat>, n: nat, reply: Reply, k: nat)
    requires k < n <= |ids| && forall j :: 0 <= j < |ids| && j != k ==> ids[j] != ids[k]
    ensures ids[k] in Deliver(ids, n, reply) && Deliver(ids, n, reply)[ids[k]] == OutcomeAt(reply, k)
  {
    if k < n - 1 {
      DeliverAt(ids, n - 1, reply, k);
    }
  }

  function CallbackIds(batch: seq<Waiting>): (ids: seq<nat>)
    ensures |ids| == |batch| && forall k :: 0 <= k < |batch| ==> ids[k] == batch[k].req.id
  {
    seq(|batch|, k requires 0 <= k < |batch| => batch[k].req.id)
  }

  function UrlOf(i: Input): Url {
    match i
    case Http(u, _, _) => u
    case StorageCall(_) => 0
  }

  /** The one call made for a batch: arguments and address of the first request, the body of each. */
  datatype BatchCall = BatchCall(args: Args, url: Url, bodies: seq<Payload>)

  function CallOf(batch: seq<Waiting>): BatchCall
    requires batch != []
  {
    BatchCall(batch[0].req.args, UrlOf(batch[0].req.input),
              seq(|batch|, k requires 0 <= k < |batch| => batch[k].req.input.body))
  }

  /** The loop of `run_batch`: inputs and callbacks in order, the arguments of the first request. */
  method PrepareBatch(requests: seq<Waiting>) returns (call: BatchCall, callbacks: seq<nat>)
    requires requests != []
    ensures call == CallOf(requests) && callbacks == CallbackIds(requests)
  {
    var input: seq<Payload> := [];
    callbacks := [];
    var args: Option<Args> := None;
    var i := 0;
    while i < |requests|
      invariant i <= |requests| && |input| == |callbacks| == i
      invariant forall k :: 0 <= k < i ==> input[k] == requests[k].req.input.body && callbacks[k] == requests[k].req.id
      invariant args == if i == 0 then None else Some(requests[0].req.args)
    {
      input := input + [requests[i].req.input.body];
      if args.None? {
        args := Some(requests[i].req.args);
      }
      callbacks := callbacks + [requests[i].req.id];
      i := i + 1;
    }
    call := BatchCall(args.value, UrlOf(requests[0].req.input), input);
  }

  /** The tail of `run_batch`: senders the zip does not reach are dropped. */
  method DeliverReply(callbacks: seq<nat>, reply: Reply) returns (outcomes: map<nat, Outcome>)
    ensures outcomes == Deliver(callbacks, |callbacks|, reply)
  {
    outcomes := map[];
    for k := 0 to |callbacks|
      invariant outcomes == Deliver(callbacks, k, reply)
    {
      match reply {
        case Ok(items) =>
          outcomes := outcomes[callbacks[k] := if k < |items| then Item(items[k]) else Dropped];
        case Err(e) =>
          outcomes := outcomes[callbacks[k] := Failed(e)];
      }
    }
  }

  // ---------- one step ----------

  ghost predicate WellShaped(s: State) {
    (forall i :: 0 <= i < |s.pending| ==> s.pending[i].reqs != [])
    && (forall i :: 0 <= i < |s.inFlight| ==> s.inFlight[i] != [])
  }

  ghost predicate Enabled(s: State, e: Event) {
    match e
    case Tick(_) => true
    case Submit(req, _) => req.id !in s.admitted && (CanBatch(req) ==> |s.channel| < CHANNEL_CAPACITY)
    case Receive => s.channel != []
    case Fire => s.pending != [] && s.pending[0].deadline <= s.now
    case Poll(polls) => |polls| == |s.inFlight|
  }

  ghost function Step(s: State, e: Event): (t: State)
    requires WellShaped(s) && Enabled(s, e)
    ensures WellShaped(t)
  {
    match e
    case Tick(dt) => s.(now := s.now + dt)
    case Submit(req, direct) =>
      var t := s.(admitted := s.admitted[req.id := req]);
      if CanBatch(req) then t.(channel := s.channel + [req])
      else t.(done := s.done[req.id := OutcomeOf(direct)])
    case Receive =>
      var w := Waiting(s.channel[0], s.now);
      s.(channel := s.channel[1..], pending := Insert(s.pending, w, s.now + s.window), received := s.received + [w])
    case Fire =>
      s.(pending := s.pending[1..], inFlight := s.inFlight + [s.pending[0].reqs],
         fired := s.fired + s.pending[0].reqs)
    case Poll(polls) =>
      var i := FirstReady(polls);
      if i == |polls| then s
      else
        s.(inFlight := SwapRemove(s.inFlight, i),
           done := s.done + Deliver(CallbackIds(s.inFlight[i]), |s.inFlight[i]|, polls[i].value))
  }

  class BatchRPCExecutorRunner {
    const batchWindow: nat
    var clock: nat
    var rx: seq<Request>
    var batching: seq<Batch>
    var joinSet: LocalJoinSet<seq<Waiting>>
    var replies: map<nat, Outcome>
    ghost var admitted: map<nat, Request>
    ghost var received: seq<Waiting>
    ghost var fired: seq<Waiting>

    constructor (batchWindow: nat)
      ensures View() == Initial(batchWindow)
      ensures fresh(joinSet)
    {
      this.batchWindow := batchWindow;
      clock, rx, batching, replies := 0, [], [], map[];
      admitted, received, fired := map[], [], [];
      joinSet := new LocalJoinSet<seq<Waiting>>();
    }

    ghost function View(): State
      reads this, joinSet
    {
      State(clock, batchWindow, rx, batching, joinSet.futures, replies, admitted, received, fired)
    }

    /** `execute`: requests that cannot be batched go straight to the executor. */
    method Execute(req: Request, direct: Result<Output, nat>)
      requires WellShaped(View()) && Enabled(View(), Submit(req, direct))
      modifies this
      ensures joinSet == old(joinSet)
      ensures View() == Step(old(View()), Submit(req, direct))
    {
      admitted := admitted[req.id := req];
      if !CanBatch(req) {
        replies := replies[req.id := OutcomeOf(direct)];
        return;
      }
      rx := rx + [req];
    }

    /** The branch of the loop that receives a request. */
    method ReceiveNext()
      requires WellShaped(View()) && Enabled(View(), Receive)
      modifies this
      ensures joinSet == old(joinSet)
      ensures View() == Step(old(View()), Receive)
    {
      var w := Waiting(rx[0], clock);
      rx := rx[1..];
      received := received + [w];
      InsertToBatching(w);
    }

    method InsertToBatching(w: Waiting)
      requires forall i :: 0 <= i < |batching| ==> batching[i].reqs != []
      modifies this`batching
      ensures batching == Insert(old(batching), w, clock + batchWindow)
    {
      hide Insert;
      var deadline := clock + batchWindow;
      var i := 0;
      assert batching[0..] == batching;
      while i < |batching| && !BatchWith(batching[i].reqs[0].req, w.req)
        invariant i <= |batching| && batching == old(batching)
        invariant batching[..i] + Insert(batching[i..], w, deadline) == Insert(batching, w, deadline)
      {
        InsertStep(batching, i, w, deadline);
        i := i + 1;
      }
      InsertStep(batching, i, w, deadline);
      if i < |batching| {
        batching := batching[i := batching[i].(reqs := batching[i].reqs + [w])];
      } else {
        batching := batching + [Batch(deadline, [w])];
      }
    }

    /** The branch of the loop that starts the batch whose deadline has passed. */
    method FireNext()
      requires WellShaped(View()) && Enabled(View(), Fire)
      modifies this, joinSet
      ensures joinSet == old(joinSet)
      ensures View() == Step(old(View()), Fire)
    {
      var batch := batching[0];
      batching := batching[1..];
      fired := fired + batch.reqs;
      joinSet.Push(batch.reqs);
    }

    /** The branch of the loop that polls the running batches; at most one completes. */
    method PollJoinSet(polls: seq<Option<Reply>>)
      requires WellShaped(View()) && Enabled(View(), Poll(polls))
      modifies this, joinSet
      ensures joinSet == old(joinSet)
      ensures View() == Step(old(View()), Poll(polls))
    {
      var running := joinSet.futures;
      var result, polled := joinSet.Next(polls);
      if result.Some? {
        var _, callbacks := PrepareBatch(running[polled - 1]);
        var outcomes := DeliverReply(callbacks, result.value);
        replies := replies + outcomes;
      }
    }
  }

  // ---------- runs ----------

  function Initial(window: nat): (s: State) {
    State(0, window, [], [], [], map[], map[], [], [])
  }

  /** A run of events; one that cannot happen where it stands is passed over. */
  ghost function Run(s: State, events: seq<Event>): (t: State)
    requires WellShaped(s)
    ensures WellShaped(t)
    decreases |events|
  {
    if events == [] then s
    else if Enabled(s, events[0]) then Run(Step(s, events[0]), events[1..])
    else Run(s, events[1..])
  }

  // ---------- the deadline queue ----------

  /** The queue is in order, batches are of one class each, and requests of a class leave in the order they came. */
  ghost predicate GoodOrder(s: State) {
    && GoodQueue(s.pending, s.now, s.window)
    && (forall i :: 0 <= i < |s.channel| ==> CanBatch(s.channel[i]))
    && (forall i :: 0 <= i < |s.inFlight| ==> OneClass(s.inFlight[i]))
    && forall q :: OfClass(s.fired + Flatten(s.pending), q) == OfClass(s.received, q)
  }

  /** What is left of `Grouped` once a batch has been sent. */
  ghost predicate OneClass(batch: seq<Waiting>) {
    batch != [] && forall k :: 0 <= k < |batch| ==> BatchWith(batch[0].req, batch[k].req) && CanBatch(batch[k].req)
  }

  lemma InsertKeepsArrivals(fired: seq<Waiting>, received: seq<Waiting>, p: seq<Batch>, w: Waiting, q: Request,
                            now: nat, window: nat)
    requires GoodQueue(p, now, window) && OfClass(fired + Flatten(p), q) == OfClass(received, q)
    ensures OfClass(fired + Flatten(Insert(p, w, now + window)), q) == OfClass(received + [w], q)
  {
    hide OfClass, Flatten, Insert, Ordered;
    InsertIsLastOfClass(p, w, now + window, q, now, window);
    OfClassAppend(fired, Flatten(p), q);
    OfClassAppend(fired, Flatten(Insert(p, w, now + window)), q);
    OfClassAppend(received, [w], q);
    var a, b, c := OfClass(fired, q), OfClass(Flatten(p), q), OfClass([w], q);
    assert a + (b + c) == (a + b) + c;
  }

  lemma ReceiveKeepsOrder(s: State)
    requires WellShaped(s) && GoodOrder(s) && s.channel != []
    ensures GoodOrder(Step(s, Receive))
  {
    hide OfClass, Flatten, Insert, Ordered, Grouped;
    var w := Waiting(s.channel[0], s.now);
    InsertKeepsOrder(s.pending, w, s.now + s.window, 0);
    InsertKeepsGroups(s.pending, w, s.now, s.window);
    var t := Step(s, Receive);
    forall q
      ensures OfClass(t.fired + Flatten(t.pending), q) == OfClass(t.received, q)
    {
      assert OfClass(s.fired + Flatten(s.pending), q) == OfClass(s.received, q);
      InsertKeepsArrivals(s.fired, s.received, s.pending, w, q, s.now, s.window);
    }
  }

  lemma FireKeepsOrder(s: State)
    requires WellShaped(s) && GoodOrder(s) && Enabled(s, Fire)
    ensures GoodOrder(Step(s, Fire))
  {
    var t := Step(s, Fire);
    TailIsGood(s.pending, s.now, s.window);
    assert Grouped(s.pending[0], s.now, s.window);
    assert t.fired + Flatten(t.pending) == s.fired + Flatten(s.pending);
  }

  lemma StepKeepsOrder(s: State, e: Event)
    requires WellShaped(s) && GoodOrder(s) && Enabled(s, e)
    ensures GoodOrder(Step(s, e))
  {
    match e
    case Tick(dt) =>
      OrderedLater(s.pending, 0, s.now + s.window, 0, s.now + dt + s.window);
      forall i | 0 <= i < |s.pending|
        ensures Grouped(s.pending[i], s.now + dt, s.window)
      {
        GroupedLater(s.pending[i], s.now, s.window, s.now + dt);
      }
    case Submit(_, _) =>
    case Receive => ReceiveKeepsOrder(s);
    case Fire => FireKeepsOrder(s);
    case Poll(polls) =>
  }

  lemma {:induction false} RunKeepsOrder(s: State, events: seq<Event>)
    requires WellShaped(s) && GoodOrder(s)
    ensures GoodOrder(Run(s, events))
    decreases |events|
  {
    if events != [] {
      if Enabled(s, events[0]) {
        StepKeepsOrder(s, events[0]);
        RunKeepsOrder(Step(s, events[0]), events[1..]);
      } else {
        RunKeepsOrder(s, events[1..]);
      }
    }
  }

  /**
   In every reachable state: deadlines do not decrease from front to back, no two pending batches
   take the same requests, every request's batch is due within the window of its arrival, and the
   requests of a class leave in the order they arrived.
   */
  lemma DeadlineQueue(window: nat, events: seq<Event>, q: Request)
    ensures var s := Run(Initial(window), events);
            && (forall i, j :: 0 <= i < j < |s.pending| ==>
                  s.pending[i].deadline <= s.pending[j].deadline
                  && !BatchWith(s.pending[i].reqs[0].req, s.pending[j].reqs[0].req))
            && (forall i, k :: 0 <= i < |s.pending| && 0 <= k < |s.pending[i].reqs| ==>
                  s.pending[i].deadline <= s.pending[i].reqs[k].receivedAt + window)
            && OfClass(s.fired, q) <= OfClass(s.received, q)
  {
    var s := Run(Initial(window), events);
    RunKeepsOrder(Initial(window), events);
    WindowStays(Initial(window), events);
    forall i, j | 0 <= i < j < |s.pending|
      ensures s.pending[i].deadline <= s.pending[j].deadline
              && !BatchWith(s.pending[i].reqs[0].req, s.pending[j].reqs[0].req)
    {
      OrderedAt(s.pending, 0, s.now + s.window, i, j);
    }
    forall i, k | 0 <= i < |s.pending| && 0 <= k < |s.pending[i].reqs|
      ensures s.pending[i].deadline <= s.pending[i].reqs[k].receivedAt + window
    {
      assert Grouped(s.pending[i], s.now, s.window);
    }
    OfClassAppend(s.fired, Flatten(s.pending), q);
  }

  lemma {:induction false} WindowStays(s: State, events: seq<Event>)
    requires WellShaped(s)
    ensures Run(s, events).window == s.window
    decreases |events|
  {
    if events != [] {
      WindowStays(if Enabled(s, events[0]) then Step(s, events[0]) else s, events[1..]);
    }
  }

  /**
   Who shares a batch: community requests for one server key, identity and address; storage calls to
   one socket address.
   */
  predicate Together(a: Request, b: Request) {
    match (a, b)
    case (Request(_, Sogs(k, i), Http(u, _, _)), Request(_, Sogs(k', i'), Http(u', _, _))) =>
      k == k' && i == i' && u == u'
    case (Request(_, Storage(Some(n)), StorageCall(_)), Request(_, Storage(Some(m)), StorageCall(_))) =>
      n.addr == m.addr
    case _ => false
  }

  /** A community request by HTTP, or a storage call: the requests that the two instances of the executor make. */
  predicate OneKind(r: Request) {
    r.args.Sogs? <==> r.input.Http?
  }

  lemma TogetherIsBatchWith(a: Request, b: Request)
    requires OneKind(a) && OneKind(b)
    ensures Together(a, b) <==> BatchWith(a, b)
  {
  }

  /** In every reachable state two requests that wait share a batch exactly if they go to one place. */
  lemma SameBatchExactly(window: nat, events: seq<Event>, i: nat, k: nat, j: nat, l: nat)
    requires var p := Run(Initial(window), events).pending;
             i < |p| && k < |p[i].reqs| && j < |p| && l < |p[j].reqs|
             && OneKind(p[i].reqs[k].req) && OneKind(p[j].reqs[l].req)
    ensures var p := Run(Initial(window), events).pending;
            i == j <==> Together(p[i].reqs[k].req, p[j].reqs[l].req)
  {
    var s := Run(Initial(window), events);
    RunKeepsOrder(Initial(window), events);
    var p := s.pending;
    var a, b := p[i].reqs[k].req, p[j].reqs[l].req;
    assert Grouped(p[i], s.now, s.window) && Grouped(p[j], s.now, s.window);
    var ha, hb := p[i].reqs[0].req, p[j].reqs[0].req;
    TogetherIsBatchWith(a, b);
    BatchWithIsEquivalence(ha, a, b);
    BatchWithIsEquivalence(a, ha, b);
    BatchWithIsEquivalence(hb, b, ha);
    BatchWithIsEquivalence(ha, b, hb);
    BatchWithIsEquivalence(hb, ha, b);
    if i < j {
      OrderedAt(p, 0, s.now + s.window, i, j);
    } else if j < i {
      OrderedAt(p, 0, s.now + s.window, j, i);
    }
  }

  // ---------- not before its time ----------

  /** A batch is due a window after its first request came, and is sent no earlier. */
  ghost predicate Patient(s: State) {
    && DueAfterWindow(s.pending, s.window)
    && forall i :: 0 <= i < |s.inFlight| ==> s.inFlight[i] != [] && s.inFlight[i][0].receivedAt + s.window <= s.now
  }

  ghost predicate DueAfterWindow(p: seq<Batch>, window: nat) {
    forall i :: 0 <= i < |p| ==> p[i].reqs != [] && p[i].deadline == p[i].reqs[0].receivedAt + window
  }

  lemma {:induction false} InsertKeepsDue(p: seq<Batch>, w: Waiting, window: nat)
    requires DueAfterWindow(p, window)
    ensures DueAfterWindow(Insert(p, w, w.receivedAt + window), window)
    decreases |p|
  {
    if p != [] && !BatchWith(p[0].reqs[0].req, w.req) {
      assert DueAfterWindow(p[1..], window);
      InsertKeepsDue(p[1..], w, window);
    }
  }

  lemma {:induction false} RunIsPatient(s: State, events: seq<Event>)
    requires WellShaped(s) && Patient(s)
    ensures Patient(Run(s, events))
    decreases |events|
  {
    hide Insert, FirstReady, Deliver;
    if events != [] {
      if Enabled(s, events[0]) {
        if events[0].Receive? {
          InsertKeepsDue(s.pending, Waiting(s.channel[0], s.now), s.window);
        }
        assert Patient(Step(s, events[0]));
        RunIsPatient(Step(s, events[0]), events[1..]);
      } else {
        RunIsPatient(s, events[1..]);
      }
    }
  }

  /** In every reachable state a batch that has been sent was held for the whole window of its first request. */
  lemma NoBatchLeavesEarly(window: nat, events: seq<Event>)
    ensures var s := Run(Initial(window), events);
            forall i :: 0 <= i < |s.inFlight| ==> s.inFlight[i] != [] && s.inFlight[i][0].receivedAt + window <= s.now
  {
    RunIsPatient(Initial(window), events);
    WindowStays(Initial(window), events);
  }

  // ---------- conservation ----------

  function One(b: bool): nat {
    if b then 1 else 0
  }

  function Count(ws: seq<Waiting>, id: nat): nat {
    if ws == [] then 0 else One(ws[0].req.id == id) + Count(ws[1..], id)
  }

  function ChannelCount(rs: seq<Request>, id: nat): nat {
    if rs == [] then 0 else One(rs[0].id == id) + ChannelCount(rs[1..], id)
  }

  function PendingCount(p: seq<Batch>, id: nat): nat {
    if p == [] then 0 else Count(p[0].reqs, id) + PendingCount(p[1..], id)
  }

  function FlightCount(fs: seq<seq<Waiting>>, id: nat): nat {
    if fs == [] then 0 else Count(fs[0], id) + FlightCount(fs[1..], id)
  }

  /** In how many places the request `id` is. */
  function Places(s: State, id: nat): nat {
    ChannelCount(s.channel, id) + PendingCount(s.pending, id) + FlightCount(s.inFlight, id) + One(id in s.done)
  }

  /** Every admitted request is in exactly one place, once, and no other request is in any. */
  ghost predicate Conserved(s: State) {
    forall id :: Places(s, id) == One(id in s.admitted)
  }

  lemma {:induction false} CountAppend(a: seq<Waiting>, b: seq<Waiting>, id: nat)
    ensures Count(a + b, id) == Count(a, id) + Count(b, id)
  {
    if a == [] {
      assert a + b == b;
    } else {
      assert (a + b)[1..] == a[1..] + b;
      CountAppend(a[1..], b, id);
    }
  }

  lemma {:induction false} ChannelCountAppend(a: seq<Request>, b: seq<Request>, id: nat)
    ensures ChannelCount(a + b, id) == ChannelCount(a, id) + ChannelCount(b, id)
  {
    if a == [] {
      assert a + b == b;
    } else {
      assert (a + b)[1..] == a[1..] + b;
      ChannelCountAppend(a[1..], b, id);
    }
  }

  lemma {:induction false} FlightCountAppend(a: seq<seq<Waiting>>, b: seq<seq<Waiting>>, id: nat)
    ensures FlightCount(a + b, id) == FlightCount(a, id) + FlightCount(b, id)
  {
    if a == [] {
      assert a + b == b;
    } else {
      assert (a + b)[1..] == a[1..] + b;
      FlightCountAppend(a[1..], b, id);
    }
  }

  lemma Singles(w: Waiting, r: Request, f: seq<Waiting>, id: nat)
    ensures Count([w], id) == One(w.req.id == id)
    ensures ChannelCount([r], id) == One(r.id == id)
    ensures FlightCount([f], id) == Count(f, id)
  {
    assert [w][1..] == [] && [r][1..] == [] && [f][1..] == [];
  }

  lemma {:induction false} InsertAddsOne(p: seq<Batch>, w: Waiting, deadline: nat, id: nat)
    requires forall i :: 0 <= i < |p| ==> p[i].reqs != []
    ensures PendingCount(Insert(p, w, deadline), id) == PendingCount(p, id) + One(w.req.id == id)
  {
    var r := Insert(p, w, deadline);
    Singles(w, w.req, [], id);
    if p == [] {
      assert r[0].reqs == [w] && r[1..] == [];
    } else if BatchWith(p[0].reqs[0].req, w.req) {
      assert r[0].reqs == p[0].reqs + [w] && r[1..] == p[1..];
      CountAppend(p[0].reqs, [w], id);
    } else {
      assert r[0] == p[0] && r[1..] == Insert(p[1..], w, deadline);
      InsertAddsOne(p[1..], w, deadline, id);
    }
  }

  lemma ReplaceCount(fs: seq<seq<Waiting>>, i: nat, f: seq<Waiting>, id: nat)
    requires i < |fs|
    ensures FlightCount(fs[i := f], id) + Count(fs[i], id) == FlightCount(fs, id) + Count(f, id)
    decreases i
  {
    if i == 0 {
      assert fs[0 := f][1..] == fs[1..];
    } else {
      assert fs[i := f][1..] == fs[1..][i - 1 := f];
      ReplaceCount(fs[1..], i - 1, f, id);
    }
  }

  /** The batch that completes leaves with its requests, and no other does, for all that the last batch moves. */
  lemma SwapRemoveCount(fs: seq<seq<Waiting>>, i: nat, id: nat)
    requires i < |fs|
    ensures FlightCount(SwapRemove(fs, i), id) + Count(fs[i], id) == FlightCount(fs, id)
  {
    var n := |fs| - 1;
    assert fs == fs[..n] + [fs[n]];
    FlightCountAppend(fs[..n], [fs[n]], id);
    assert FlightCount([fs[n]], id) == Count(fs[n], id) by {
      assert [fs[n]][1..] == [];
    }
    if i < n {
      ReplaceCount(fs[..n], i, fs[n], id);
    }
  }

  lemma {:induction false} CountAtMost(fs: seq<seq<Waiting>>, i: nat, id: nat)
    requires i < |fs|
    ensures Count(fs[i], id) <= FlightCount(fs, id)
  {
    if i > 0 {
      CountAtMost(fs[1..], i - 1, id);
    }
  }

  /** Delivering a batch answers exactly its callers. */
  lemma {:induction false} DeliverAnswers(batch: seq<Waiting>, k: nat, reply: Reply, id: nat)
    requires k <= |batch|
    ensures id in Deliver(CallbackIds(batch), k, reply) <==> Count(batch[..k], id) > 0
  {
    if k > 0 {
      assert batch[..k] == batch[..k - 1] + [batch[k - 1]];
      CountAppend(batch[..k - 1], [batch[k - 1]], id);
      Singles(batch[k - 1], batch[k - 1].req, [], id);
      DeliverAnswers(batch, k - 1, reply, id);
    }
  }

  lemma PollConserves(s: State, polls: seq<Option<Reply>>, id: nat)
    requires WellShaped(s) && Enabled(s, Poll(polls)) && FirstReady(polls) < |polls|
    requires Places(s, id) == One(id in s.admitted)
    ensures Places(Step(s, Poll(polls)), id) == One(id in s.admitted)
  {
    var i := FirstReady(polls);
    var batch := s.inFlight[i];
    SwapRemoveCount(s.inFlight, i, id);
    CountAtMost(s.inFlight, i, id);
    assert batch[..|batch|] == batch;
    DeliverAnswers(batch, |batch|, polls[i].value, id);
  }

  lemma StepConserves(s: State, e: Event, id: nat)
    requires WellShaped(s) && Enabled(s, e)
    requires Places(s, id) == One(id in s.admitted)
    ensures Places(Step(s, e), id) == One(id in Step(s, e).admitted)
  {
    hide Count, FlightCount, Insert;
    match e
    case Tick(_) =>
    case Submit(req, _) =>
      ChannelCountAppend(s.channel, [req], id);
      Singles(Waiting(req, 0), req, [], id);
    case Receive =>
      InsertAddsOne(s.pending, Waiting(s.channel[0], s.now), s.now + s.window, id);
    case Fire =>
      FlightCountAppend(s.inFlight, [s.pending[0].reqs], id);
      Singles(s.pending[0].reqs[0], s.pending[0].reqs[0].req, s.pending[0].reqs, id);
    case Poll(polls) =>
      if FirstReady(polls) < |polls| {
        PollConserves(s, polls, id);
      }
  }

  lemma {:induction false} RunConserves(s: State, events: seq<Event>, id: nat)
    requires WellShaped(s) && Places(s, id) == One(id in s.admitted)
    ensures Places(Run(s, events), id) == One(id in Run(s, events).admitted)
    decreases |events|
  {
    if events != [] {
      if Enabled(s, events[0]) {
        StepConserves(s, events[0], id);
        RunConserves(Step(s, events[0]), events[1..], id);
      } else {
        RunConserves(s, events[1..], id);
      }
    }
  }

  /**
   In every reachable state every admitted request is in the channel, in a batch, under way or
   answered: in one place, once.
   */
  lemma RequestsAreConserved(window: nat, events: seq<Event>)
    ensures Conserved(Run(Initial(window), events))
  {
    forall id
      ensures Places(Run(Initial(window), events), id) == One(id in Run(Initial(window), events).admitted)
    {
      RunConserves(Initial(window), events, id);
    }
  }

  lemma StepKeepsOutcome(s: State, e: Event, id: nat)
    requires WellShaped(s) && Enabled(s, e) && id in s.done
    requires Places(s, id) == One(id in s.admitted)
    ensures id in Step(s, e).done && Step(s, e).done[id] == s.done[id]
  {
    if e.Poll? && FirstReady(e.polls) < |e.polls| {
      var i := FirstReady(e.polls);
      var batch := s.inFlight[i];
      CountAtMost(s.inFlight, i, id);
      assert batch[..|batch|] == batch;
      DeliverAnswers(batch, |batch|, e.polls[i].value, id);
    }
  }

  /** An answered caller's outcome never changes: each caller is answered once. */
  lemma {:induction false} OutcomesAreFinal(s: State, events: seq<Event>, id: nat)
    requires WellShaped(s) && id in s.done && Places(s, id) == One(id in s.admitted)
    ensures id in Run(s, events).done && Run(s, events).done[id] == s.done[id]
    decreases |events|
  {
    if events != [] {
      if Enabled(s, events[0]) {
        StepConserves(s, events[0], id);
        StepKeepsOutcome(s, events[0], id);
        OutcomesAreFinal(Step(s, events[0]), events[1..], id);
      } else {
        OutcomesAreFinal(s, events[1..], id);
      }
    }
  }

  // ---------- every request is answered ----------

  /** Nothing waits and nothing runs. */
  predicate AtRest(s: State) {
    s.channel == [] && s.pending == [] && s.inFlight == []
  }

  /** The runner takes a step, a call completes, or time passes that the front batch waits for. */
  ghost predicate Progress(s: State, e: Event) {
    Enabled(s, e)
    && match e
       case Tick(dt) => dt > 0 && s.pending != [] && s.now < s.pending[0].deadline
       case Submit(_, _) => false
       case Poll(polls) => FirstReady(polls) < |polls|
       case _ => true
  }

  function Outstanding(s: State): nat {
    3 * |s.channel| + 2 * |s.pending| + |s.inFlight|
  }

  function TimeLeft(s: State): nat {
    if s.pending != [] && s.now < s.pending[0].deadline then s.pending[0].deadline - s.now else 0
  }

  lemma {:induction false} InsertAddsAtMostOne(p: seq<Batch>, w: Waiting, deadline: nat)
    requires forall i :: 0 <= i < |p| ==> p[i].reqs != []
    ensures |Insert(p, w, deadline)| <= |p| + 1
  {
    if p != [] {
      InsertAddsAtMostOne(p[1..], w, deadline);
    }
  }

  lemma ProgressDescends(s: State, e: Event)
    requires WellShaped(s) && Progress(s, e)
    ensures Outstanding(Step(s, e)) < Outstanding(s)
            || (Outstanding(Step(s, e)) == Outstanding(s) && TimeLeft(Step(s, e)) < TimeLeft(s))
  {
    hide Insert;
    if e.Receive? {
      InsertAddsAtMostOne(s.pending, Waiting(s.channel[0], s.now), s.now + s.window);
    }
  }

  /** Short of rest something can go on: the queue never blocks. */
  lemma NotAtRest(s: State) returns (e: Event)
    requires WellShaped(s) && !AtRest(s)
    ensures Progress(s, e)
  {
    if s.channel != [] {
      e := Receive;
    } else if s.inFlight != [] {
      var reply: Reply := Err(0);
      e := Poll(seq(|s.inFlight|, _ => Some(reply)));
    } else if s.pending[0].deadline <= s.now {
      e := Fire;
    } else {
      e := Tick(1);
    }
  }

  /** Picks what happens next, as long as something is left to do. */
  ghost predicate Schedules(pick: State -> Event) {
    forall s :: WellShaped(s) && !AtRest(s) ==> Progress(s, pick(s))
  }

  /** The run `events` from `s` is the scheduler's. */
  ghost predicate Picked(s: State, events: seq<Event>, pick: State -> Event)
    requires WellShaped(s)
    decreases |events|
  {
    events == []
    || (!AtRest(s) && events[0] == pick(s) && Enabled(s, events[0]) && Picked(Step(s, events[0]), events[1..], pick))
  }

  lemma {:induction false} ComesToRest(s: State, pick: State -> Event) returns (events: seq<Event>)
    requires WellShaped(s) && Schedules(pick)
    ensures Picked(s, events, pick) && AtRest(Run(s, events))
    decreases Outstanding(s), TimeLeft(s)
  {
    hide Outstanding, TimeLeft, Step, AtRest;
    if AtRest(s) {
      events := [];
    } else {
      var e := pick(s);
      ProgressDescends(s, e);
      var more := ComesToRest(Step(s, e), pick);
      events := [e] + more;
      assert events[1..] == more;
    }
  }

  lemma RestIsDone(s: State, id: nat)
    requires AtRest(s) && Places(s, id) == One(id in s.admitted)
    ensures id in s.admitted <==> id in s.done
  {
  }

  /**
   From every reachable state, once no more requests come and under every scheduler that lets time
   pass and calls complete, the queue runs empty and every request that was ever admitted has its outcome.
   */
  lemma EveryRequestIsAnswered(window: nat, events: seq<Event>, pick: State -> Event) returns (more: seq<Event>)
    requires Schedules(pick)
    ensures Picked(Run(Initial(window), events), more, pick)
    ensures var s := Run(Run(Initial(window), events), more);
            AtRest(s) && forall id :: id in s.admitted <==> id in s.done
  {
    var s := Run(Initial(window), events);
    more := ComesToRest(s, pick);
    forall id
      ensures id in Run(s, more).admitted <==> id in Run(s, more).done
    {
      RunConserves(Initial(window), events, id);
      RunConserves(s, more, id);
      RestIsDone(Run(s, more), id);
    }
  }

  // ---------- who waits ----------

  /** The requests that are let in: not an HTTP request marked otherwise, and not a storage call without a node. */
  predicate MayWait(r: Request) {
    match r
    case Request(_, Storage(None), _) => false
    case Request(_, _, Http(_, _, false)) => false
    case _ => true
  }

  /** How often the request `id` has been received or waits to be. */
  function Queued(s: State, id: nat): nat {
    ChannelCount(s.channel, id) + Count(s.received, id)
  }

  /**
   Requests that may wait have been in the channel, and are answered by a batch that was sent with
   them; the others are answered at once and never wait.
   */
  ghost predicate Admitted(s: State, id: nat) {
    && (id in s.admitted || id !in s.done)
    && (id in s.done && MayWait(s.admitted[id]) ==> Count(s.fired, id) > 0)
    && Count(s.received, id) == PendingCount(s.pending, id) + Count(s.fired, id)
    && Queued(s, id) == One(id in s.admitted && MayWait(s.admitted[id]))
    && FlightCount(s.inFlight, id) <= Count(s.fired, id)
    && (id in s.admitted && !MayWait(s.admitted[id]) ==> id in s.done)
  }

  lemma StepKeepsAdmitted(s: State, e: Event, id: nat)
    requires WellShaped(s) && Enabled(s, e) && Admitted(s, id)
    ensures Admitted(Step(s, e), id)
  {
    hide Count, FlightCount, PendingCount, ChannelCount, Insert, Deliver;
    match e
    case Tick(_) =>
    case Submit(req, _) =>
      ChannelCountAppend(s.channel, [req], id);
      Singles(Waiting(req, 0), req, [], id);
    case Receive => ReceiveKeepsAdmitted(s, id);
    case Fire => FireKeepsAdmitted(s, id);
    case Poll(polls) =>
      if FirstReady(polls) < |polls| {
        PollKeepsAdmitted(s, polls, id);
      }
  }

  lemma ReceiveKeepsAdmitted(s: State, id: nat)
    requires WellShaped(s) && Enabled(s, Receive) && Admitted(s, id)
    ensures Admitted(Step(s, Receive), id)
  {
    hide Count, FlightCount, PendingCount, Insert;
    var w := Waiting(s.channel[0], s.now);
    InsertAddsOne(s.pending, w, s.now + s.window, id);
    CountAppend(s.received, [w], id);
    Singles(w, w.req, [], id);
  }

  lemma FireKeepsAdmitted(s: State, id: nat)
    requires WellShaped(s) && Enabled(s, Fire) && Admitted(s, id)
    ensures Admitted(Step(s, Fire), id)
  {
    hide Count, FlightCount, ChannelCount;
    var reqs := s.pending[0].reqs;
    FlightCountAppend(s.inFlight, [reqs], id);
    Singles(reqs[0], reqs[0].req, reqs, id);
    CountAppend(s.fired, reqs, id);
  }

  lemma PollKeepsAdmitted(s: State, polls: seq<Option<Reply>>, id: nat)
    requires WellShaped(s) && Enabled(s, Poll(polls)) && FirstReady(polls) < |polls| && Admitted(s, id)
    ensures Admitted(Step(s, Poll(polls)), id)
  {
    hide Count, FlightCount, PendingCount, ChannelCount, Deliver, SwapRemove, FirstReady, CallbackIds, MayWait;
    var i := FirstReady(polls);
    var batch := s.inFlight[i];
    SwapRemoveCount(s.inFlight, i, id);
    CountAtMost(s.inFlight, i, id);
    assert batch[..|batch|] == batch;
    DeliverAnswers(batch, |batch|, polls[i].value, id);
  }

  lemma {:induction false} RunKeepsAdmitted(s: State, events: seq<Event>, id: nat)
    requires WellShaped(s) && Admitted(s, id)
    ensures Admitted(Run(s, events), id)
    decreases |events|
  {
    hide Admitted, Step, Enabled;
    if events != [] {
      if Enabled(s, events[0]) {
        StepKeepsAdmitted(s, events[0], id);
        RunKeepsAdmitted(Step(s, events[0]), events[1..], id);
      } else {
        RunKeepsAdmitted(s, events[1..], id);
      }
    }
  }

  /**
   In every reachable state: a request that may wait is answered only by a batch it was sent in; any
   other is answered at once and is never received, in a batch, or under way.
   */
  lemma OnlyBatchableRequestsWait(window: nat, events: seq<Event>, id: nat)
    requires id in Run(Initial(window), events).admitted
    ensures var s := Run(Initial(window), events);
            if MayWait(s.admitted[id]) then id in s.done ==> Count(s.fired, id) == 1
            else id in s.done && ChannelCount(s.channel, id) == 0 && Count(s.received, id) == 0
                 && PendingCount(s.pending, id) == 0 && FlightCount(s.inFlight, id) == 0
  {
    RunKeepsAdmitted(Initial(window), events, id);
  }

  /** Ten requests fit into the channel. */
  lemma {:induction false} ChannelIsBounded(s: State, events: seq<Event>)
    requires WellShaped(s) && |s.channel| <= 10
    ensures |Run(s, events).channel| <= 10
    decreases |events|
  {
    if events != [] {
      ChannelIsBounded(if Enabled(s, events[0]) then Step(s, events[0]) else s, events[1..]);
    }
  }

  lemma Stops(s: State)
    requires WellShaped(s)
    ensures Run(s, []) == s
  {
  }

  lemma RunsOn(s: State, e: Event, rest: seq<Event>)
    requires WellShaped(s) && Enabled(s, e)
    ensures Run(s, [e] + rest) == Run(Step(s, e), rest)
  {
    assert ([e] + rest)[1..] == rest;
  }

  lemma SubmitJoins(s: State, req: Request)
    requires WellShaped(s) && |s.channel| < 10 && MayWait(req) && req.id !in s.admitted
    ensures var e := Submit(req, Err(0));
            Enabled(s, e) && Step(s, e).channel == s.channel + [req]
            && Step(s, e).admitted == s.admitted[req.id := req]
  {
  }

  /** Requests of callers of their own, all of which may wait. */
  ghost predicate Newcomers(admitted: map<nat, Request>, reqs: seq<Request>)
    decreases |reqs|
  {
    reqs == []
    || (MayWait(reqs[0]) && reqs[0].id !in admitted && Newcomers(admitted[reqs[0].id := reqs[0]], reqs[1..]))
  }

  /** And ten do: requests that may wait join the channel as long as there are no more in it. */
  lemma {:induction false} ChannelFills(s: State, reqs: seq<Request>)
    requires WellShaped(s) && |s.channel| + |reqs| <= 10 && Newcomers(s.admitted, reqs)
    ensures Run(s, Submits(reqs)).channel == s.channel + reqs
    decreases |reqs|
  {
    hide Step, Enabled, MayWait, WellShaped, Run;
    if reqs == [] {
      Stops(s);
    } else {
      var e := Submit(reqs[0], Err(0));
      SubmitJoins(s, reqs[0]);
      ChannelFills(Step(s, e), reqs[1..]);
      RunsOn(s, e, Submits(reqs[1..]));
      assert s.channel + [reqs[0]] + reqs[1..] == s.channel + reqs;
    }
  }

  function Submits(reqs: seq<Request>): seq<Event> {
    if reqs == [] then [] else [Submit(reqs[0], Err(0))] + Submits(reqs[1..])
  }

  // ---------- order and time of arrival ----------

  function Requests(ws: seq<Waiting>): seq<Request> {
    seq(|ws|, i requires 0 <= i < |ws| => ws[i].req)
  }

  /** The requests that the events let into the channel, in the order they were submitted. */
  ghost function LetIn(s: State, events: seq<Event>): seq<Request>
    requires WellShaped(s)
    decreases |events|
  {
    if events == [] then []
    else if !Enabled(s, events[0]) then LetIn(s, events[1..])
    else (if events[0].Submit? && MayWait(events[0].req) then [events[0].req] else [])
         + LetIn(Step(s, events[0]), events[1..])
  }

  lemma StepKeepsLine(s: State, e: Event)
    requires WellShaped(s) && Enabled(s, e)
    ensures var t := Step(s, e);
            Requests(t.received) + t.channel ==
            Requests(s.received) + s.channel + if e.Submit? && MayWait(e.req) then [e.req] else []
  {
    if e.Receive? {
      var w := Waiting(s.channel[0], s.now);
      assert Requests(s.received + [w]) == Requests(s.received) + [s.channel[0]];
    }
  }

  /** From any state on, requests are received in the order they are submitted, and the channel holds the rest. */
  lemma {:induction false} FirstComeFirstReceived(s: State, events: seq<Event>)
    requires WellShaped(s)
    ensures var t := Run(s, events);
            Requests(t.received) + t.channel == Requests(s.received) + s.channel + LetIn(s, events)
    decreases |events|
  {
    hide Step, Enabled, MayWait;
    if events != [] {
      if Enabled(s, events[0]) {
        StepKeepsLine(s, events[0]);
        FirstComeFirstReceived(Step(s, events[0]), events[1..]);
      } else {
        FirstComeFirstReceived(s, events[1..]);
      }
    }
  }

  /** The time that passes in the events. */
  function Elapsed(events: seq<Event>): nat {
    if events == [] then 0 else (if events[0].Tick? then events[0].dt else 0) + Elapsed(events[1..])
  }

  /** The clock runs with the ticks, and what is received meanwhile is stamped with a time in between. */
  lemma {:induction false} ReceivedOnTheClock(s: State, events: seq<Event>)
    requires WellShaped(s)
    ensures var t := Run(s, events);
            && t.now == s.now + Elapsed(events)
            && s.received <= t.received
            && forall k :: |s.received| <= k < |t.received| ==> s.now <= t.received[k].receivedAt <= t.now
    decreases |events|
  {
    if events != [] {
      ReceivedOnTheClock(if Enabled(s, events[0]) then Step(s, events[0]) else s, events[1..]);
    }
  }
}
