/**
 Batching is invisible to the callers (batcher.rs): every answer is the one the caller's own request
 would have got, sent alone.
 */
module BatchTransparency {
  import opened Wrappers

  import opened JoinSet
  import opened Batcher
  import opened BatchRunner

  /** What the server at an address answers to one body, under the given arguments. */
  type Server = (Args, Url, Payload) -> Output

  function Direct(serve: Server, r: Request): Output {
    serve(r.args, UrlOf(r.input), r.input.body)
  }

  /** What may go wrong: replies with fewer items than bodies, and calls that fail with one of the `errors`. */
  datatype Faults = Faults(short: bool, errors: set<nat>)

  const NO_FAULTS: Faults := Faults(false, {})

  /** Each item of a reply answers the body in its place. */
  ghost predicate HonestReply(serve: Server, call: BatchCall, reply: Reply, faults: Faults) {
    match reply
    case Err(e) => e in faults.errors
    case Ok(items) =>
      (faults.short || |call.bodies| <= |items|)
      && forall k :: 0 <= k < |call.bodies| && k < |items| ==> items[k] == serve(call.args, call.url, call.bodies[k])
  }

  /** What the executor answers to a request that is not batched. */
  ghost predicate HonestAnswer(serve: Server, r: Request, direct: Result<Output, nat>, faults: Faults) {
    match direct
    case Err(e) => e in faults.errors
    case Ok(v) => v == Direct(serve, r)
  }

  ghost predicate HonestEvent(serve: Server, s: State, e: Event, faults: Faults)
    requires WellShaped(s) && Enabled(s, e)
  {
    match e
    case Submit(req, direct) => OneKind(req) && (CanBatch(req) || HonestAnswer(serve, req, direct, faults))
    case Poll(polls) =>
      forall i :: 0 <= i < |polls| && polls[i].Some? ==>
        HonestReply(serve, CallOf(s.inFlight[i]), polls[i].value, faults)
    case _ => true
  }

  ghost predicate HonestRun(serve: Server, s: State, events: seq<Event>, faults: Faults)
    requires WellShaped(s)
    decreases |events|
  {
    events == []
    || if Enabled(s, events[0]) then
         HonestEvent(serve, s, events[0], faults) && HonestRun(serve, Step(s, events[0]), events[1..], faults)
       else HonestRun(serve, s, events[1..], faults)
  }

  /** The caller got its own answer; or, where that may go wrong, an error that some call failed with, or nothing. */
  ghost predicate RightOutcome(serve: Server, r: Request, o: Outcome, faults: Faults) {
    o == Item(Direct(serve, r))
    || (o.Failed? && o.error in faults.errors)
    || (o == Dropped && faults.short)
  }

  ghost predicate AllRight(serve: Server, s: State, faults: Faults) {
    forall id :: id in s.done ==> id in s.admitted && RightOutcome(serve, s.admitted[id], s.done[id], faults)
  }

  /** Batching cannot be told from sending each request alone, in any run. */
  ghost predicate Transparent(serve: Server) {
    forall window: nat, events: seq<Event>, faults: Faults ::
      HonestRun(serve, Initial(window), events, faults) ==>
        AllRight(serve, Run(Initial(window), events), faults)
  }

  /** A storage node's answer depends on its socket address, not on the key it is called under. */
  ghost predicate AddressOnly(serve: Server) {
    forall n: NodeAddress, m: NodeAddress, body: Payload :: n.addr == m.addr ==>
      serve(Storage(Some(n)), 0, body) == serve(Storage(Some(m)), 0, body)
  }

  // ---------- whose request is where ----------

  /** Requests of this kind get the same answer from every batch they can be in. */
  ghost predicate Safe(serve: Server, r: Request) {
    OneKind(r) && (r.args.Sogs? || AddressOnly(serve))
  }

  ghost predicate Known(serve: Server, r: Request, admitted: map<nat, Request>) {
    r.id in admitted && admitted[r.id] == r && Safe(serve, r)
  }

  ghost predicate AllKnown(serve: Server, ws: seq<Waiting>, admitted: map<nat, Request>) {
    forall k :: 0 <= k < |ws| ==> Known(serve, ws[k].req, admitted)
  }

  ghost predicate BatchesKnown(serve: Server, p: seq<Batch>, admitted: map<nat, Request>) {
    forall i :: 0 <= i < |p| ==> AllKnown(serve, p[i].reqs, admitted)
  }

  /** Every request under way is the admitted one, and every answer so far is right. */
  ghost predicate OnTrack(serve: Server, s: State, faults: Faults) {
    && (forall i :: 0 <= i < |s.channel| ==> Known(serve, s.channel[i], s.admitted))
    && BatchesKnown(serve, s.pending, s.admitted)
    && (forall i :: 0 <= i < |s.inFlight| ==> AllKnown(serve, s.inFlight[i], s.admitted))
    && AllRight(serve, s, faults)
  }

  lemma {:induction false} InsertKnown(serve: Server, p: seq<Batch>, w: Waiting, deadline: nat,
                                       admitted: map<nat, Request>)
    requires forall i :: 0 <= i < |p| ==> p[i].reqs != []
    requires BatchesKnown(serve, p, admitted) && Known(serve, w.req, admitted)
    ensures BatchesKnown(serve, Insert(p, w, deadline), admitted)
    decreases |p|
  {
    var r := Insert(p, w, deadline);
    if p == [] {
      assert r == [Batch(deadline, [w])];
    } else if BatchWith(p[0].reqs[0].req, w.req) {
      assert AllKnown(serve, p[0].reqs, admitted);
      assert r == [Batch(p[0].deadline, p[0].reqs + [w])] + p[1..];
    } else {
      InsertKnown(serve, p[1..], w, deadline, admitted);
    }
  }

  /** Requests that go out together would get the same answer alone. */
  lemma AnswerOfHead(serve: Server, head: Request, r: Request)
    requires Safe(serve, head) && Safe(serve, r) && BatchWith(head, r)
    ensures serve(head.args, UrlOf(head.input), r.input.body) == Direct(serve, r)
  {
  }

  /** The zip hands every caller of a batch the answer to its own request. */
  lemma {:induction false} DeliverIsRight(serve: Server, batch: seq<Waiting>, k: nat, reply: Reply,
                                          admitted: map<nat, Request>, faults: Faults, id: nat)
    requires OneClass(batch) && AllKnown(serve, batch, admitted) && k <= |batch|
    requires HonestReply(serve, CallOf(batch), reply, faults)
    requires id in Deliver(CallbackIds(batch), k, reply)
    ensures id in admitted
    ensures RightOutcome(serve, admitted[id], Deliver(CallbackIds(batch), k, reply)[id], faults)
  {
    var r := batch[k - 1].req;
    if id == r.id {
      AnswerOfHead(serve, batch[0].req, r);
      assert CallOf(batch).bodies[k - 1] == r.input.body;
    } else {
      DeliverIsRight(serve, batch, k - 1, reply, admitted, faults, id);
    }
  }

  lemma SubmitOnTrack(serve: Server, s: State, req: Request, direct: Result<Output, nat>, faults: Faults)
    requires WellShaped(s) && Enabled(s, Submit(req, direct)) && OnTrack(serve, s, faults)
    requires HonestEvent(serve, s, Submit(req, direct), faults) && Safe(serve, req)
    ensures OnTrack(serve, Step(s, Submit(req, direct)), faults)
  {
    var t := Step(s, Submit(req, direct));
    forall i | 0 <= i < |s.pending|
      ensures AllKnown(serve, s.pending[i].reqs, t.admitted)
    {
      assert AllKnown(serve, s.pending[i].reqs, s.admitted);
    }
    forall i | 0 <= i < |s.inFlight|
      ensures AllKnown(serve, s.inFlight[i], t.admitted)
    {
      assert AllKnown(serve, s.inFlight[i], s.admitted);
    }
  }

  lemma PollOnTrack(serve: Server, s: State, polls: seq<Option<Reply>>, faults: Faults)
    requires WellShaped(s) && Enabled(s, Poll(polls)) && OnTrack(serve, s, faults)
    requires forall i :: 0 <= i < |s.inFlight| ==> OneClass(s.inFlight[i])
    requires HonestEvent(serve, s, Poll(polls), faults)
    ensures OnTrack(serve, Step(s, Poll(polls)), faults)
  {
    var t, i := Step(s, Poll(polls)), FirstReady(polls);
    if i < |polls| {
      var batch := s.inFlight[i];
      assert AllKnown(serve, batch, s.admitted);
      var outcomes := Deliver(CallbackIds(batch), |batch|, polls[i].value);
      forall id | id in t.done
        ensures id in t.admitted && RightOutcome(serve, t.admitted[id], t.done[id], faults)
      {
        if id in outcomes {
          DeliverIsRight(serve, batch, |batch|, polls[i].value, s.admitted, faults, id);
        }
      }
    }
  }

  lemma StepOnTrack(serve: Server, s: State, e: Event, faults: Faults)
    requires WellShaped(s) && Enabled(s, e) && OnTrack(serve, s, faults) && GoodOrder(s)
    requires HonestEvent(serve, s, e, faults) && (e.Submit? ==> Safe(serve, e.req))
    ensures OnTrack(serve, Step(s, e), faults)
  {
    match e
    case Tick(_) =>
    case Submit(req, direct) => SubmitOnTrack(serve, s, req, direct, faults);
    case Receive => InsertKnown(serve, s.pending, Waiting(s.channel[0], s.now), s.now + s.window, s.admitted);
    case Fire => assert AllKnown(serve, s.pending[0].reqs, s.admitted);
    case Poll(polls) => PollOnTrack(serve, s, polls, faults);
  }

  /** All requests of the run go to community servers. */
  predicate ToCommunities(events: seq<Event>) {
    forall i :: 0 <= i < |events| && events[i].Submit? ==> events[i].req.args.Sogs?
  }

  lemma {:induction false} RunOnTrack(serve: Server, s: State, events: seq<Event>, faults: Faults)
    requires WellShaped(s) && OnTrack(serve, s, faults) && GoodOrder(s)
    requires HonestRun(serve, s, events, faults)
    requires AddressOnly(serve) || ToCommunities(events)
    ensures OnTrack(serve, Run(s, events), faults)
    decreases |events|
  {
    if events != [] {
      assert ToCommunities(events) ==> ToCommunities(events[1..]);
      if Enabled(s, events[0]) {
        StepOnTrack(serve, s, events[0], faults);
        StepKeepsOrder(s, events[0]);
        RunOnTrack(serve, Step(s, events[0]), events[1..], faults);
      } else {
        RunOnTrack(serve, s, events[1..], faults);
      }
    }
  }

  /**
   Requests to community servers, whose arguments and address are compared in full: whatever the
   server computes, every caller of every honest run gets the answer to its own request.
   */
  lemma CommunityBatchingIsTransparent(serve: Server, window: nat, events: seq<Event>, faults: Faults)
    requires HonestRun(serve, Initial(window), events, faults) && ToCommunities(events)
    ensures AllRight(serve, Run(Initial(window), events), faults)
  {
    RunOnTrack(serve, Initial(window), events, faults);
  }

  /** When nothing fails, in every run that has come to rest each caller has exactly the answer to its own request. */
  lemma EveryCallerGetsItsAnswer(serve: Server, window: nat, events: seq<Event>, id: nat)
    requires HonestRun(serve, Initial(window), events, NO_FAULTS)
    requires AddressOnly(serve) || ToCommunities(events)
    requires AtRest(Run(Initial(window), events)) && id in Run(Initial(window), events).admitted
    ensures var s := Run(Initial(window), events);
            id in s.done && s.done[id] == Item(Direct(serve, s.admitted[id]))
  {
    RunOnTrack(serve, Initial(window), events, NO_FAULTS);
    RunConserves(Initial(window), events, id);
    RestIsDone(Run(Initial(window), events), id);
  }

  /**
   The caller's outcome in the server's terms: what it answers, at the address and under the arguments
   that the caller itself gave, to the body it gave; a storage call has no address of its own.
   */
  ghost predicate Served(serve: Server, r: Request, o: Outcome, faults: Faults) {
    match r
    case Request(_, args, Http(url, body, _)) => o == Item(serve(args, url, body)) || Excused(o, faults)
    case Request(_, args, StorageCall(body)) => o == Item(serve(args, 0, body)) || Excused(o, faults)
  }

  ghost predicate Excused(o: Outcome, faults: Faults) {
    (o.Failed? && o.error in faults.errors) || (o == Dropped && faults.short)
  }

  /** In every honest run each answer comes from the caller's own server, for the caller's own body. */
  lemma AnswersComeFromOwnServer(serve: Server, window: nat, events: seq<Event>, faults: Faults, id: nat)
    requires HonestRun(serve, Initial(window), events, faults)
    requires AddressOnly(serve) || ToCommunities(events)
    requires id in Run(Initial(window), events).done
    ensures var s := Run(Initial(window), events);
            id in s.admitted && Served(serve, s.admitted[id], s.done[id], faults)
  {
    RunOnTrack(serve, Initial(window), events, faults);
  }

  // ---------- storage nodes ----------

  lemma RunsOn(serve: Server, s: State, e: Event, rest: seq<Event>)
    requires WellShaped(s) && Enabled(s, e) && HonestEvent(serve, s, e, NO_FAULTS)
    ensures Run(s, [e] + rest) == Run(Step(s, e), rest)
    ensures HonestRun(serve, Step(s, e), rest, NO_FAULTS) ==> HonestRun(serve, s, [e] + rest, NO_FAULTS)
  {
    assert ([e] + rest)[1..] == rest;
  }

  lemma RunsNowhere(serve: Server, s: State)
    requires WellShaped(s)
    ensures Run(s, []) == s && HonestRun(serve, s, [], NO_FAULTS)
  {
  }

  /** Two requests of one class, from the channel to one running batch. */
  function InChannel(r0: Request, r1: Request): State {
    State(0, 0, [r0, r1], [], [], map[], map[0 := r0, 1 := r1], [], [])
  }

  function InOneBatch(r0: Request, r1: Request): State {
    State(0, 0, [], [Batch(0, [Waiting(r0, 0), Waiting(r1, 0)])], [], map[], map[0 := r0, 1 := r1],
          [Waiting(r0, 0), Waiting(r1, 0)], [])
  }

  function InFlight(r0: Request, r1: Request): State {
    InOneBatch(r0, r1).(pending := [], inFlight := [[Waiting(r0, 0), Waiting(r1, 0)]],
                        fired := [Waiting(r0, 0), Waiting(r1, 0)])
  }

  lemma SubmitTwo(serve: Server, r0: Request, r1: Request, rest: seq<Event>)
    requires r0.id == 0 && r1.id == 1 && CanBatch(r0) && CanBatch(r1) && OneKind(r0) && OneKind(r1)
    ensures var events := [Submit(r0, Err(0))] + ([Submit(r1, Err(0))] + rest);
            Run(Initial(0), events) == Run(InChannel(r0, r1), rest)
            && (HonestRun(serve, InChannel(r0, r1), rest, NO_FAULTS) ==>
                  HonestRun(serve, Initial(0), events, NO_FAULTS))
  {
    var s := Step(Initial(0), Submit(r0, Err(0)));
    assert Step(s, Submit(r1, Err(0))) == InChannel(r0, r1);
    RunsOn(serve, s, Submit(r1, Err(0)), rest);
    RunsOn(serve, Initial(0), Submit(r0, Err(0)), [Submit(r1, Err(0))] + rest);
  }

  lemma ReceiveTwo(serve: Server, r0: Request, r1: Request, rest: seq<Event>)
    requires BatchWith(r0, r1)
    ensures var events := [Receive] + ([Receive] + rest);
            Run(InChannel(r0, r1), events) == Run(InOneBatch(r0, r1), rest)
            && (HonestRun(serve, InOneBatch(r0, r1), rest, NO_FAULTS) ==>
                  HonestRun(serve, InChannel(r0, r1), events, NO_FAULTS))
  {
    var w0, w1 := Waiting(r0, 0), Waiting(r1, 0);
    var s := State(0, 0, [r1], [Batch(0, [w0])], [], map[], map[0 := r0, 1 := r1], [w0], []);
    assert Step(InChannel(r0, r1), Receive) == s;
    assert [w0] + [w1] == [w0, w1];
    assert Insert([Batch(0, [w0])], w1, 0) == [Batch(0, [w0, w1])];
    assert Step(s, Receive) == InOneBatch(r0, r1);
    RunsOn(serve, s, Receive, rest);
    RunsOn(serve, InChannel(r0, r1), Receive, [Receive] + rest);
  }

  lemma AnswerTwo(serve: Server, r0: Request, r1: Request, answer: Output)
    requires r0.id == 0 && r1.id == 1
    requires answer == serve(r0.args, UrlOf(r0.input), r0.input.body) == serve(r0.args, UrlOf(r0.input), r1.input.body)
    ensures var events := [Fire] + ([Poll([Some(Ok([answer, answer]))])] + []);
            var s := Run(InOneBatch(r0, r1), events);
            HonestRun(serve, InOneBatch(r0, r1), events, NO_FAULTS)
            && s.admitted == map[0 := r0, 1 := r1] && 1 in s.done && s.done[1] == Item(answer)
  {
    hide Run, HonestRun;
    var poll := Poll([Some(Ok([answer, answer]))]);
    assert Run(Step(InFlight(r0, r1), poll), []) == Step(InFlight(r0, r1), poll)
           && HonestRun(serve, Step(InFlight(r0, r1), poll), [], NO_FAULTS) by {
      RunsNowhere(serve, Step(InFlight(r0, r1), poll));
    }
    assert Step(InOneBatch(r0, r1), Fire) == InFlight(r0, r1);
    assert CallbackIds([Waiting(r0, 0), Waiting(r1, 0)]) == [0, 1];
    assert Deliver([0, 1], 2, Ok([answer, answer]))[1] == Item(answer);
    RunsOn(serve, InFlight(r0, r1), poll, []);
    RunsOn(serve, InOneBatch(r0, r1), Fire, [poll] + []);
  }

  /** Two storage requests to one address under two keys: the server is called under the first key for both. */
  lemma TwoKeysOneBatch(serve: Server, n: NodeAddress, m: NodeAddress, body: Payload) returns (events: seq<Event>)
    requires n.addr == m.addr
    ensures HonestRun(serve, Initial(0), events, NO_FAULTS)
    ensures var s := Run(Initial(0), events);
            1 in s.done && s.done[1] == Item(serve(Storage(Some(n)), 0, body))
            && 1 in s.admitted && s.admitted[1] == Request(1, Storage(Some(m)), StorageCall(body))
  {
    var r0, r1 := Request(0, Storage(Some(n)), StorageCall(body)), Request(1, Storage(Some(m)), StorageCall(body));
    var answer := serve(Storage(Some(n)), 0, body);
    var sent := [Fire] + ([Poll([Some(Ok([answer, answer]))])] + []);
    AnswerTwo(serve, r0, r1, answer);
    ReceiveTwo(serve, r0, r1, sent);
    SubmitTwo(serve, r0, r1, [Receive] + ([Receive] + sent));
    events := [Submit(r0, Err(0))] + ([Submit(r1, Err(0))] + ([Receive] + ([Receive] + sent)));
  }

  /** Batching is transparent for exactly the servers that do not look at a storage node's key. */
  lemma TransparentExactly(serve: Server)
    ensures Transparent(serve) <==> AddressOnly(serve)
  {
    if AddressOnly(serve) {
      forall window: nat, events: seq<Event>, faults: Faults | HonestRun(serve, Initial(window), events, faults)
        ensures AllRight(serve, Run(Initial(window), events), faults)
      {
        RunOnTrack(serve, Initial(window), events, faults);
      }
    }
    if Transparent(serve) {
      forall n: NodeAddress, m: NodeAddress, body: Payload | n.addr == m.addr
        ensures serve(Storage(Some(n)), 0, body) == serve(Storage(Some(m)), 0, body)
      {
        var events := TwoKeysOneBatch(serve, n, m, body);
        assert AllRight(serve, Run(Initial(0), events), NO_FAULTS);
      }
    }
  }
}
