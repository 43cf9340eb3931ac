/**
 The batching scheduler (batcher.rs). Requests wait in a queue of batches ordered by deadline; a due
 batch is sent as one call, and the replies are handed to the callers by position.
 */
module Batcher {
  import opened Wrappers

  // ---------- requests ----------

  // Keys, identities, addresses, bodies and answers are only ever compared for equality.
  type Key = nat
  type Url = nat
  type Payload = nat
  type Output = nat

  datatype NodeAddress = NodeAddress(addr: nat, pubKey: Key)

  /** The executors' arguments: a community server and the identity used there, or a storage node. */
  datatype Args = Sogs(serverKey: Key, identity: nat) | Storage(node: Option<NodeAddress>)

  datatype Input = Http(baseUrl: Url, body: Payload, batchable: bool) | StorageCall(body: Payload)

  /** `id` stands for the caller's one-shot reply channel. */
  datatype Request = Request(id: nat, args: Args, input: Input)

  predicate ArgsBatchWith(a: Args, b: Args) {
    match (a, b)
    case (Sogs(k, i), Sogs(k', i')) => k == k' && i == i'
    case (Storage(Some(n)), Storage(Some(n'))) => n.addr == n'.addr
    case _ => false
  }

  predicate InputsBatchWith(a: Input, b: Input) {
    match (a, b)
    case (Http(u, _, _), Http(u', _, _)) => u == u'
    case (StorageCall(_), StorageCall(_)) => true
    case _ => false
  }

  predicate BatchWith(a: Request, b: Request) {
    ArgsBatchWith(a.args, b.args) && InputsBatchWith(a.input, b.input)
  }

  predicate CanBatch(r: Request) {
    (r.input.Http? ==> r.input.batchable) && (r.args.Storage? ==> r.args.node.Some?)
  }

  /** Among the requests that are let into the queue, batching together is an equivalence. */
  lemma BatchWithIsEquivalence(a: Request, b: Request, c: Request)
    ensures CanBatch(a) ==> BatchWith(a, a)
    ensures BatchWith(a, b) <==> BatchWith(b, a)
    ensures BatchWith(a, b) && BatchWith(b, c) ==> BatchWith(a, c)
  {
  }

  // ---------- the queue of batches ----------

  datatype Waiting = Waiting(req: Request, receivedAt: nat)

  datatype Batch = Batch(deadline: nat, reqs: seq<Waiting>)

  /** Joins the first batch whose head takes the request, else opens a batch at the back. */
  function Insert(p: seq<Batch>, w: Waiting, deadline: nat): (r: seq<Batch>)
    requires forall i :: 0 <= i < |p| ==> p[i].reqs != []
    ensures forall i :: 0 <= i < |r| ==> r[i].reqs != []
  {
    if p == [] then [Batch(deadline, [w])]
    else if BatchWith(p[0].reqs[0].req, w.req) then [Batch(p[0].deadline, p[0].reqs + [w])] + p[1..]
    else [p[0]] + Insert(p[1..], w, deadline)
  }

  /** Where the search for a batch stands at the `i`-th. */
  lemma InsertStep(p: seq<Batch>, i: nat, w: Waiting, deadline: nat)
    requires i <= |p| && forall j :: 0 <= j < |p| ==> p[j].reqs != []
    ensures var r := p[..i] + Insert(p[i..], w, deadline);
            r == if i == |p| then p + [Batch(deadline, [w])]
                 else if BatchWith(p[i].reqs[0].req, w.req) then p[i := p[i].(reqs := p[i].reqs + [w])]
                 else p[..i + 1] + Insert(p[i + 1..], w, deadline)
  {
    if i < |p| {
      assert p[i..][0] == p[i] && p[i..][1..] == p[i + 1..];
      assert p[..i + 1] == p[..i] + [p[i]];
      assert p == p[..i] + [p[i]] + p[i + 1..];
    }
  }

  /** One batch: its members can all be batched with its head, and none waits longer than the window. */
  ghost predicate Grouped(b: Batch, now: nat, window: nat) {
    b.reqs != []
    && forall k :: 0 <= k < |b.reqs| ==>
         BatchWith(b.reqs[0].req, b.reqs[k].req) && CanBatch(b.reqs[k].req)
         && b.reqs[k].receivedAt <= now && b.deadline <= b.reqs[k].receivedAt + window
  }

  /** No batch of `p` takes requests of `q`'s class. */
  ghost predicate NoneTakes(p: seq<Batch>, q: Request) {
    forall i :: 0 <= i < |p| ==> p[i].reqs != [] && !BatchWith(p[i].reqs[0].req, q)
  }

  /** Deadlines do not decrease from `from` on and reach at most `last`; every class has one batch. */
  ghost predicate Ordered(p: seq<Batch>, from: nat, last: nat) {
    p == [] || (p[0].reqs != [] && from <= p[0].deadline <= last
                && NoneTakes(p[1..], p[0].reqs[0].req) && Ordered(p[1..], p[0].deadline, last))
  }

  ghost predicate AllGrouped(p: seq<Batch>, now: nat, window: nat) {
    forall i :: 0 <= i < |p| ==> Grouped(p[i], now, window)
  }

  ghost predicate GoodQueue(p: seq<Batch>, now: nat, window: nat) {
    Ordered(p, 0, now + window) && AllGrouped(p, now, window)
  }

  /** `Ordered`, read pointwise. */
  lemma {:induction false} OrderedAt(p: seq<Batch>, from: nat, last: nat, i: nat, j: nat)
    requires Ordered(p, from, last) && i < j < |p|
    ensures p[i].deadline <= p[j].deadline
    ensures p[i].reqs != [] && p[j].reqs != [] && !BatchWith(p[i].reqs[0].req, p[j].reqs[0].req)
  {
    if i > 0 {
      OrderedAt(p[1..], p[0].deadline, last, i - 1, j - 1);
    } else {
      DeadlineFrom(p[1..], p[0].deadline, last, j - 1);
      assert p[1..][j - 1] == p[j];
      BatchWithIsEquivalence(p[0].reqs[0].req, p[j].reqs[0].req, p[0].reqs[0].req);
    }
  }

  lemma {:induction false} DeadlineFrom(p: seq<Batch>, from: nat, last: nat, j: nat)
    requires Ordered(p, from, last) && j < |p|
    ensures from <= p[j].deadline <= last
  {
    if j > 0 {
      DeadlineFrom(p[1..], p[0].deadline, last, j - 1);
    }
  }

  lemma {:induction false} OrderedLater(p: seq<Batch>, from: nat, last: nat, from': nat, last': nat)
    requires Ordered(p, from, last) && from' <= from && last <= last'
    ensures Ordered(p, from', last')
  {
    if p != [] {
      OrderedLater(p[1..], p[0].deadline, last, p[0].deadline, last');
    }
  }

  lemma {:induction false} NoneTakesInsert(p: seq<Batch>, w: Waiting, deadline: nat, q: Request)
    requires NoneTakes(p, q) && !BatchWith(w.req, q)
    ensures NoneTakes(Insert(p, w, deadline), q)
  {
    if p != [] {
      assert NoneTakes(p[1..], q);
      NoneTakesInsert(p[1..], w, deadline, q);
    }
  }

  lemma {:induction false} InsertKeepsOrder(p: seq<Batch>, w: Waiting, deadline: nat, from: nat)
    requires Ordered(p, from, deadline) && from <= deadline && CanBatch(w.req)
    ensures Ordered(Insert(p, w, deadline), from, deadline)
  {
    if p == [] {
      assert Insert(p, w, deadline)[1..] == [];
    } else {
      var r := Insert(p, w, deadline);
      if BatchWith(p[0].reqs[0].req, w.req) {
        assert r[1..] == p[1..];
        assert r[0].reqs[0] == p[0].reqs[0];
      } else {
        assert r[1..] == Insert(p[1..], w, deadline);
        InsertKeepsOrder(p[1..], w, deadline, p[0].deadline);
        BatchWithIsEquivalence(p[0].reqs[0].req, w.req, w.req);
        NoneTakesInsert(p[1..], w, deadline, p[0].reqs[0].req);
      }
    }
  }

  lemma {:induction false} InsertKeepsGroups(p: seq<Batch>, w: Waiting, now: nat, window: nat)
    requires GoodQueue(p, now, window) && CanBatch(w.req) && w.receivedAt == now
    ensures AllGrouped(Insert(p, w, now + window), now, window)
    decreases |p|
  {
    if p == [] {
      BatchWithIsEquivalence(w.req, w.req, w.req);
    } else if !BatchWith(p[0].reqs[0].req, w.req) {
      TailIsGood(p, now, window);
      InsertKeepsGroups(p[1..], w, now, window);
    } else {
      var b := Batch(p[0].deadline, p[0].reqs + [w]);
      assert forall k :: 0 <= k < |p[0].reqs| ==> b.reqs[k] == p[0].reqs[k];
      assert Grouped(b, now, window);
    }
  }

  lemma GroupedLater(b: Batch, now: nat, window: nat, now': nat)
    requires Grouped(b, now, window) && now <= now'
    ensures Grouped(b, now', window)
  {
  }

  // ---------- what waits, in order ----------

  function Flatten(p: seq<Batch>): seq<Waiting> {
    if p == [] then [] else p[0].reqs + Flatten(p[1..])
  }

  /** The requests of `q`'s class, in order. */
  function OfClass(ws: seq<Waiting>, q: Request): seq<Waiting> {
    if ws == [] then []
    else (if BatchWith(q, ws[0].req) then [ws[0]] else []) + OfClass(ws[1..], q)
  }

  lemma {:induction false} OfClassAppend(a: seq<Waiting>, b: seq<Waiting>, q: Request)
    ensures OfClass(a + b, q) == OfClass(a, q) + OfClass(b, q)
  {
    if a == [] {
      assert a + b == b;
    } else {
      assert (a + b)[1..] == a[1..] + b;
      OfClassAppend(a[1..], b, q);
    }
  }

  lemma {:induction false} OfOtherClass(ws: seq<Waiting>, head: Request, q: Request)
    requires forall k :: 0 <= k < |ws| ==> BatchWith(head, ws[k].req)
    requires !BatchWith(head, q)
    ensures OfClass(ws, q) == []
  {
    if ws != [] {
      OfOtherClass(ws[1..], head, q);
      BatchWithIsEquivalence(q, ws[0].req, head);
      BatchWithIsEquivalence(head, ws[0].req, head);
      BatchWithIsEquivalence(q, head, q);
    }
  }

  lemma {:induction false} NoneWaits(p: seq<Batch>, q: Request, now: nat, window: nat)
    requires NoneTakes(p, q) && AllGrouped(p, now, window)
    ensures OfClass(Flatten(p), q) == []
    decreases |p|
  {
    if p != [] {
      assert NoneTakes(p[1..], q);
      NoneWaits(p[1..], q, now, window);
      assert Grouped(p[0], now, window);
      OfOtherClass(p[0].reqs, p[0].reqs[0].req, q);
      OfClassAppend(p[0].reqs, Flatten(p[1..]), q);
    }
  }

  lemma NoneTakesAlike(p: seq<Batch>, a: Request, b: Request)
    requires NoneTakes(p, a) && BatchWith(a, b)
    ensures NoneTakes(p, b)
  {
    forall i | 0 <= i < |p|
      ensures !BatchWith(p[i].reqs[0].req, b)
    {
      BatchWithIsEquivalence(a, b, a);
      BatchWithIsEquivalence(p[i].reqs[0].req, b, a);
    }
  }

  /** The case of `InsertIsLastOfClass` in which the first batch takes the request. */
  lemma JoinIsLastOfClass(p: seq<Batch>, w: Waiting, q: Request, now: nat, window: nat)
    requires p != [] && GoodQueue(p, now, window) && BatchWith(p[0].reqs[0].req, w.req)
    ensures OfClass((p[0].reqs + [w]) + Flatten(p[1..]), q) == OfClass(Flatten(p), q) + OfClass([w], q)
  {
    var head, rest := p[0].reqs[0].req, Flatten(p[1..]);
    OfClassAppend(p[0].reqs, rest, q);
    OfClassAppend(p[0].reqs + [w], rest, q);
    OfClassAppend(p[0].reqs, [w], q);
    if BatchWith(q, w.req) {
      BatchWithIsEquivalence(w.req, q, head);
      BatchWithIsEquivalence(head, w.req, q);
      NoneTakesAlike(p[1..], head, q);
      NoneWaits(p[1..], q, now, window);
    }
  }

  /** Inserting puts a request behind every waiting request of its class, and moves no other. */
  lemma {:induction false} InsertIsLastOfClass(p: seq<Batch>, w: Waiting, deadline: nat, q: Request,
                                               now: nat, window: nat)
    requires GoodQueue(p, now, window)
    ensures OfClass(Flatten(Insert(p, w, deadline)), q) == OfClass(Flatten(p), q) + OfClass([w], q)
    decreases |p|
  {
    var r := Insert(p, w, deadline);
    if p == [] {
      assert r[1..] == [] && Flatten(r) == [w];
    } else if BatchWith(p[0].reqs[0].req, w.req) {
      assert r[1..] == p[1..] && Flatten(r) == (p[0].reqs + [w]) + Flatten(p[1..]);
      JoinIsLastOfClass(p, w, q, now, window);
    } else {
      assert r[1..] == Insert(p[1..], w, deadline) && Flatten(r) == p[0].reqs + Flatten(r[1..]);
      TailIsGood(p, now, window);
      InsertIsLastOfClass(p[1..], w, deadline, q, now, window);
      OfClassAppend(p[0].reqs, Flatten(p[1..]), q);
      OfClassAppend(p[0].reqs, Flatten(r[1..]), q);
    }
  }

  lemma TailIsGood(p: seq<Batch>, now: nat, window: nat)
    requires p != [] && GoodQueue(p, now, window)
    ensures GoodQueue(p[1..], now, window)
  {
    OrderedLater(p[1..], p[0].deadline, now + window, 0, now + window);
  }
}
