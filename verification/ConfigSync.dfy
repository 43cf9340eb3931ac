/**
 What holds while other tasks mutate and merge a shared config in between the steps of its push and
 dump loops (config/wrapper.rs, worker/sync_config.rs).
 */
module ConfigSync {
  import opened Wrappers

  import opened ConfigWrapper

  function One(b: bool): nat {
    if b then 1 else 0
  }

  function Total(tails: seq<Tail>, of: Tail -> nat): nat {
    if tails == [] then 0 else of(tails[0]) + Total(tails[1..], of)
  }

  lemma {:induction false} TotalAppend(tails: seq<Tail>, t: Tail, of: Tail -> nat)
    ensures Total(tails + [t], of) == Total(tails, of) + of(t)
  {
    if tails == [] {
      assert [t][1..] == [] && tails + [t] == [t];
    } else {
      assert (tails + [t])[1..] == tails[1..] + [t];
      TotalAppend(tails[1..], t, of);
    }
  }

  lemma {:induction false} TotalReplace(tails: seq<Tail>, i: nat, t: Tail, of: Tail -> nat)
    requires i < |tails|
    ensures Total(tails[i := t], of) + of(tails[i]) == Total(tails, of) + of(t)
  {
    if i == 0 {
      assert tails[0 := t][1..] == tails[1..];
    } else {
      assert tails[i := t][1..] == tails[1..][i - 1 := t];
      TotalReplace(tails[1..], i - 1, t, of);
    }
  }

  // ---------- no lost wake-up ----------

  predicate WillSend(t: Tail) {
    t.ending.Send?
  }

  /** A push request is queued, about to be sent, or just being served. */
  ghost predicate PushOnTheWay(s: State) {
    || s.queue != []
    || s.pushing.Drain?
    || WillSend(s.pushTail)
    || WillSend(s.dumpTail)
    || exists i :: 0 <= i < |s.outside| && WillSend(s.outside[i])
  }

  ghost predicate Awake(s: State) {
    s.config.NeedsPush() ==> PushOnTheWay(s)
  }

  lemma OutsideKeepsAwake(s: State, i: nat)
    requires Awake(s) && Enabled(s, Outside(i))
    ensures Awake(Step(s, Outside(i)))
  {
    var t := Step(s, Outside(i));
    if s.config.NeedsPush() && t.queue == [] && !s.pushing.Drain? && !WillSend(s.pushTail) && !WillSend(s.dumpTail) {
      var k :| 0 <= k < |s.outside| && WillSend(s.outside[k]);
      assert WillSend(t.outside[k]);
    }
  }

  lemma StepKeepsAwake(s: State, e: Event)
    requires Awake(s) && Enabled(s, e)
    ensures Awake(Step(s, e))
  {
    match e
    case Mutate(_, _, _) =>
      assert Step(s, e).outside[..|s.outside|] == s.outside;
      assert Step(s, e).config.NeedsPush() ==> WillSend(Step(s, e).outside[|s.outside|]);
    case Merge(_, _) =>
      assert Step(s, e).config.NeedsPush() ==> WillSend(Step(s, e).outside[|s.outside|]);
    case Outside(i) => OutsideKeepsAwake(s, i);
    case _ =>
      assert Step(s, e).outside == s.outside;
  }

  lemma {:induction false} RunKeepsAwake(s: State, events: seq<Event>)
    requires Awake(s)
    ensures Awake(Run(s, events))
    decreases |events|
  {
    hide Awake, Step, Enabled;
    if events != [] {
      if Enabled(s, events[0]) {
        StepKeepsAwake(s, events[0]);
        RunKeepsAwake(Step(s, events[0]), events[1..]);
      } else {
        RunKeepsAwake(s, events[1..]);
      }
    }
  }

  /**
   In every reachable state a config that needs a push has a request on the way, wherever the need
   came from: a restored config, a merge, a mutation, or one that lands between a push and its confirmation.
   */
  lemma NoLostWakeUp(config: Config, events: seq<Event>)
    ensures var s := Run(Initial(config), events); s.config.NeedsPush() ==> PushOnTheWay(s)
  {
    RunKeepsAwake(Initial(config), events);
  }

  /** A mutation that changes the config makes it due for a push and a dump, and its caller has to wait. */
  lemma ChangeIsDue(s: State, m: nat, awaits: bool)
    requires Enabled(s, Mutate(m, true, awaits))
    ensures var t := Step(s, Mutate(m, true, awaits));
            && t.config.NeedsPush() && t.config.needsDump && m in t.config.content && PushOnTheWay(t)
            && t.answers == s.answers && t.settled == s.settled
            && t.outside == s.outside + [Tail(true, Send(if awaits then Some(m) else None))]
  {
    var t := Step(s, Mutate(m, true, awaits));
    assert WillSend(t.outside[|s.outside|]);
  }

  /** A push that is confirmed undisturbed leaves the config clean, with all of it settled. */
  lemma ConfirmedIsClean(s: State)
    requires s.pushing.Drain? && s.config.NeedsPush()
    ensures var t := Step(s, PushLock(false)).(pushTail := DONE);
            Enabled(t, ConfirmLock)
            && var r := Step(t, ConfirmLock);
               !r.config.NeedsPush() && r.config.content == s.config.content && s.config.content <= r.settled
               && r.config.needsDump
  {
  }

  /** A mutation that lands between a push and its confirmation is not taken for pushed. */
  lemma MutationDuringPushStaysDue(s: State, m: nat, awaits: bool)
    requires s.pushing.Drain? && s.config.NeedsPush() && m !in s.settled && Enabled(s, Mutate(m, true, awaits))
    ensures var pushed := Step(s, PushLock(false)).(pushTail := DONE);
            Enabled(pushed, Mutate(m, true, awaits))
            && var late := Step(pushed, Mutate(m, true, awaits));
               Enabled(late, ConfirmLock)
               && var t := Step(late, ConfirmLock);
                  t.config.NeedsPush() && m in t.config.content && m !in t.settled && s.config.content <= t.settled
  {
  }

  // ---------- callbacks ----------

  function Carrier(id: nat): Tail -> nat {
    (t: Tail) => One(t.ending == Send(Some(id)) || t.ending == Answer(id))
  }

  function Queued(queue: seq<Option<nat>>, id: nat): nat {
    if queue == [] then 0 else One(queue[0] == Some(id)) + Queued(queue[1..], id)
  }

  function Held(ids: seq<nat>, id: nat): nat {
    if ids == [] then 0 else One(ids[0] == id) + Held(ids[1..], id)
  }

  /** In how many places the callback `id` is. */
  function Places(s: State, id: nat): nat {
    Total(s.outside, Carrier(id)) + Queued(s.queue, id) + Held(s.callbacks, id) + One(id in s.answers)
  }

  predicate CarriesNone(t: Tail) {
    t.ending == Nothing || t.ending == Send(None)
  }

  /** Each waiting caller is in one place, once; the loops' own calls carry none. */
  ghost predicate CallbacksConserved(s: State) {
    && CarriesNone(s.pushTail) && CarriesNone(s.dumpTail)
    && (s.pushing.Receive? ==> s.callbacks == [])
    && forall id :: Places(s, id) == One(id in s.waiters)
  }

  lemma {:induction false} QueuedAppend(queue: seq<Option<nat>>, cb: Option<nat>, id: nat)
    ensures Queued(queue + [cb], id) == Queued(queue, id) + One(cb == Some(id))
  {
    if queue == [] {
      assert [cb][1..] == [] && queue + [cb] == [cb];
    } else {
      assert (queue + [cb])[1..] == queue[1..] + [cb];
      QueuedAppend(queue[1..], cb, id);
    }
  }

  lemma {:induction false} HeldAppend(ids: seq<nat>, x: nat, id: nat)
    ensures Held(ids + [x], id) == Held(ids, id) + One(x == id)
  {
    if ids == [] {
      assert [x][1..] == [] && ids + [x] == [x];
    } else {
      assert (ids + [x])[1..] == ids[1..] + [x];
      HeldAppend(ids[1..], x, id);
    }
  }

  lemma {:induction false} HeldIsIn(ids: seq<nat>, id: nat)
    ensures Held(ids, id) > 0 <==> id in ids
  {
    if ids != [] {
      assert ids == [ids[0]] + ids[1..];
      HeldIsIn(ids[1..], id);
    }
  }

  lemma OutsideConserves(s: State, i: nat, id: nat)
    requires Enabled(s, Outside(i)) && Places(s, id) == One(id in s.waiters)
    ensures Places(Step(s, Outside(i)), id) == Places(s, id)
  {
    hide Total, Queued, Held;
    var tail := s.outside[i];
    TotalReplace(s.outside, i, Rest(tail), Carrier(id));
    if !tail.notify && tail.ending.Send? {
      QueuedAppend(s.queue, tail.ending.cb, id);
    }
  }

  lemma CallConserves(s: State, e: Event, id: nat)
    requires Enabled(s, e) && (e.Mutate? || e.Merge?) && Places(s, id) == One(id in s.waiters)
    ensures Places(Step(s, e), id) == One(id in Step(s, e).waiters)
  {
    hide Total, Queued, Held;
    match e
    case Mutate(m, changes, awaits) =>
      var c := s.config.Mutate(m, changes);
      TotalAppend(s.outside, AfterMutate(c, true, if awaits then Some(m) else None), Carrier(id));
    case Merge(after, accepted) => TotalAppend(s.outside, AfterMerge(after, accepted), Carrier(id));
  }

  lemma TakenConserves(s: State, id: nat)
    requires s.queue != []
    ensures Places(Taken(s), id) == Places(s, id)
  {
    if s.queue[0].Some? {
      HeldAppend(s.callbacks, s.queue[0].value, id);
    }
  }

  lemma AnsweringConserves(s: State, id: nat)
    requires Enabled(s, Answering) && Places(s, id) == One(id in s.waiters)
    ensures Places(Step(s, Answering), id) == One(id in s.waiters)
  {
    hide Total, Queued, Held;
    HeldIsIn(s.callbacks, id);
    HeldIsIn([], id);
  }

  lemma AdvanceConserves(s: State, t: Tail, id: nat)
    requires CarriesNone(t)
    ensures Places(Advance(s, t), id) == Places(s, id) && Advance(s, t).waiters == s.waiters
  {
    hide Total, Queued, Held;
    QueuedAppend(s.queue, None, id);
  }

  lemma SamePlaces(s: State, t: State, id: nat)
    requires t.outside == s.outside && t.queue == s.queue && t.callbacks == s.callbacks && t.answers == s.answers
    ensures Places(t, id) == Places(s, id)
  {
  }

  lemma LoopConserves(s: State, e: Event, id: nat)
    requires CarriesNone(s.pushTail) && CarriesNone(s.dumpTail)
    requires Enabled(s, e) && !e.Mutate? && !e.Merge? && !e.Outside?
    requires Places(s, id) == One(id in s.waiters)
    ensures Places(Step(s, e), id) == One(id in s.waiters) && Step(s, e).waiters == s.waiters
  {
    hide Places, Advance;
    if e.Answering? {
      AnsweringConserves(s, id);
    } else if e.Recv? || e.DrainOne? {
      TakenConserves(s, id);
      SamePlaces(Taken(s), Step(s, e), id);
    } else if e.PushTail? || e.DumpTail? {
      var t := if e.PushTail? then s.pushTail else s.dumpTail;
      AdvanceConserves(s, t, id);
      SamePlaces(Advance(s, t), Step(s, e), id);
    } else {
      SamePlaces(s, Step(s, e), id);
    }
  }

  lemma StepConserves(s: State, e: Event, id: nat)
    requires CarriesNone(s.pushTail) && CarriesNone(s.dumpTail)
    requires Enabled(s, e) && Places(s, id) == One(id in s.waiters)
    ensures Places(Step(s, e), id) == One(id in Step(s, e).waiters)
  {
    hide Places, Enabled;
    match e
    case Mutate(_, _, _) => CallConserves(s, e, id);
    case Merge(_, _) => CallConserves(s, e, id);
    case Outside(i) => OutsideConserves(s, i, id);
    case _ => LoopConserves(s, e, id);
  }

  lemma StepKeepsCallbacks(s: State, e: Event)
    requires CallbacksConserved(s) && Enabled(s, e)
    ensures CallbacksConserved(Step(s, e))
  {
    forall id
      ensures Places(Step(s, e), id) == One(id in Step(s, e).waiters)
    {
      StepConserves(s, e, id);
    }
  }

  lemma TailIsPending(s: State, i: nat, id: nat)
    requires i < |s.outside| && s.outside[i].ending == Answer(id) && Places(s, id) == One(id in s.waiters)
    ensures id !in s.answers
  {
    hide Total, Queued, Held;
    TotalReplace(s.outside, i, DONE, Carrier(id));
  }

  lemma CallbackIsPending(s: State, id: nat)
    requires Places(s, id) == One(id in s.waiters)
    ensures id in s.callbacks ==> id !in s.answers
  {
    hide Total, Queued;
    HeldIsIn(s.callbacks, id);
  }

  lemma OthersUnanswered(answers: map<nat, bool>, ids: seq<nat>, ok: bool, id: nat)
    requires id in answers && id !in ids
    ensures id in AllAnswered(answers, ids, ok) && AllAnswered(answers, ids, ok)[id] == answers[id]
  {
  }

  /** An answer, once given, never changes. */
  lemma AnswersAreFinal(s: State, e: Event, id: nat)
    requires CallbacksConserved(s) && Enabled(s, e) && id in s.answers
    ensures id in Step(s, e).answers && Step(s, e).answers[id] == s.answers[id]
  {
    hide Places, AllAnswered;
    assert Places(s, id) == One(id in s.waiters);
    match e
    case Outside(i) =>
      if s.outside[i].ending == Answer(id) {
        TailIsPending(s, i, id);
      }
    case Answering =>
      CallbackIsPending(s, id);
      OthersUnanswered(s.answers, s.callbacks, s.pushing.ok, id);
    case _ =>
  }

  // ---------- what an Ok means ----------

  ghost predicate TailHonest(s: State, t: Tail) {
    (t.ending.Answer? ==> t.ending.id in s.settled)
    && (t.ending.Send? && t.ending.cb.Some? ==> t.ending.cb.value in s.config.content)
  }

  /** The callbacks at hand are those of mutations the loop is answering for. */
  ghost predicate AnsweringFor(s: State, id: nat) {
    match s.pushing
    case Confirm(_, pushed) => id in pushed
    case Reply(ok) => ok ==> id in s.settled
    case _ => true
  }

  ghost predicate OkMeansSettled(s: State) {
    && (!s.config.NeedsPush() ==> s.config.content <= s.settled)
    && (forall i :: 0 <= i < |s.outside| ==> TailHonest(s, s.outside[i]))
    && (forall i :: 0 <= i < |s.queue| && s.queue[i].Some? ==> s.queue[i].value in s.config.content)
    && (forall i :: 0 <= i < |s.callbacks| ==> s.callbacks[i] in s.config.content && AnsweringFor(s, s.callbacks[i]))
    && CarriesNone(s.pushTail) && CarriesNone(s.dumpTail)
    && forall id :: id in s.answers && s.answers[id] ==> id in s.settled
  }

  lemma CallKeepsOk(s: State, e: Event)
    requires OkMeansSettled(s) && Enabled(s, e) && (e.Mutate? || e.Merge?)
    ensures OkMeansSettled(Step(s, e))
  {
    var t := Step(s, e);
    assert s.config.content <= t.config.content && s.settled <= t.settled;
    forall i | 0 <= i < |t.outside|
      ensures TailHonest(t, t.outside[i])
    {
      if i < |s.outside| {
        assert TailHonest(s, s.outside[i]) && t.outside[i] == s.outside[i];
      }
    }
  }

  lemma AdvanceKeepsOk(s: State, t: Tail)
    requires OkMeansSettled(s) && TailHonest(s, t)
    ensures OkMeansSettled(Advance(s, t))
  {
    var r := Advance(s, t);
    forall i | 0 <= i < |r.outside|
      ensures TailHonest(r, r.outside[i])
    {
      assert TailHonest(s, s.outside[i]);
    }
  }

  lemma ReplaceKeepsOk(s: State, i: nat, t: Tail)
    requires OkMeansSettled(s) && i < |s.outside| && TailHonest(s, t)
    ensures OkMeansSettled(s.(outside := s.outside[i := t]))
  {
    var r := s.(outside := s.outside[i := t]);
    forall k | 0 <= k < |r.outside|
      ensures TailHonest(r, r.outside[k])
    {
      assert TailHonest(s, s.outside[k]);
    }
  }

  lemma OutsideKeepsOk(s: State, i: nat)
    requires OkMeansSettled(s) && Enabled(s, Outside(i))
    ensures OkMeansSettled(Step(s, Outside(i)))
  {
    var t := s.outside[i];
    assert TailHonest(s, t);
    AdvanceKeepsOk(s, t);
    ReplaceKeepsOk(Advance(s, t), i, Rest(t));
  }

  lemma TakenKeepsOk(s: State, e: Event)
    requires OkMeansSettled(s) && Enabled(s, e) && (e.Recv? || e.DrainOne?)
    ensures OkMeansSettled(Step(s, e))
  {
    var t := Step(s, e);
    assert forall i :: 0 <= i < |s.outside| ==> TailHonest(s, s.outside[i]);
    assert forall i :: 0 <= i < |t.queue| ==> t.queue[i] == s.queue[i + 1];
  }

  lemma PushStepKeepsOk(s: State, e: Event)
    requires OkMeansSettled(s) && Enabled(s, e) && (e.PushLock? || e.ConfirmLock? || e.Answering?)
    ensures OkMeansSettled(Step(s, e))
  {
    var t := Step(s, e);
    forall i | 0 <= i < |t.outside|
      ensures TailHonest(t, t.outside[i])
    {
      assert TailHonest(s, s.outside[i]);
    }
  }

  lemma TailStepKeepsOk(s: State, e: Event)
    requires OkMeansSettled(s) && Enabled(s, e) && (e.PushTail? || e.DumpTail?)
    ensures OkMeansSettled(Step(s, e))
  {
    AdvanceKeepsOk(s, if e.PushTail? then s.pushTail else s.dumpTail);
    SameTailsKeepOk(Advance(s, if e.PushTail? then s.pushTail else s.dumpTail), Step(s, e));
  }

  lemma DumpStepKeepsOk(s: State, e: Event)
    requires OkMeansSettled(s) && Enabled(s, e) && (e.DumpSubscribe? || e.DumpRecv? || e.DumpLock?)
    ensures OkMeansSettled(Step(s, e))
  {
    SameTailsKeepOk(s, Step(s, e));
  }

  /** Nothing the claim is about has changed, but for what is settled. */
  lemma SameTailsKeepOk(s: State, t: State)
    requires OkMeansSettled(s) && CarriesNone(t.pushTail) && CarriesNone(t.dumpTail)
    requires t.config.content == s.config.content && t.config.status == s.config.status && s.settled <= t.settled
    requires t.outside == s.outside && t.queue == s.queue && t.callbacks == s.callbacks && t.pushing == s.pushing
    requires t.answers == s.answers
    ensures OkMeansSettled(t)
  {
    forall i | 0 <= i < |t.outside|
      ensures TailHonest(t, t.outside[i])
    {
      assert TailHonest(s, s.outside[i]);
    }
  }

  lemma StepKeepsOk(s: State, e: Event)
    requires OkMeansSettled(s) && Enabled(s, e)
    ensures OkMeansSettled(Step(s, e))
  {
    hide OkMeansSettled, Enabled, Step;
    match e
    case Mutate(_, _, _) => CallKeepsOk(s, e);
    case Merge(_, _) => CallKeepsOk(s, e);
    case Outside(i) => OutsideKeepsOk(s, i);
    case Recv => TakenKeepsOk(s, e);
    case DrainOne => TakenKeepsOk(s, e);
    case PushLock(_) => PushStepKeepsOk(s, e);
    case ConfirmLock => PushStepKeepsOk(s, e);
    case Answering => PushStepKeepsOk(s, e);
    case PushTail => TailStepKeepsOk(s, e);
    case DumpTail => TailStepKeepsOk(s, e);
    case _ => DumpStepKeepsOk(s, e);
  }

  ghost predicate Good(s: State) {
    CallbacksConserved(s) && OkMeansSettled(s) && ErrMeansRefused(s)
  }

  lemma {:induction false} RunKeepsGood(s: State, events: seq<Event>)
    requires Good(s)
    ensures Good(Run(s, events))
    decreases |events|
  {
    hide CallbacksConserved, OkMeansSettled, ErrMeansRefused, Step, Enabled;
    if events != [] {
      if Enabled(s, events[0]) {
        StepKeepsCallbacks(s, events[0]);
        StepKeepsOk(s, events[0]);
        StepKeepsErr(s, events[0]);
        RunKeepsGood(Step(s, events[0]), events[1..]);
      } else {
        RunKeepsGood(s, events[1..]);
      }
    }
  }

  lemma FreshIsGood(config: Config)
    ensures Good(Initial(config))
  {
    var request: seq<Option<nat>> := [None];
    assert request[1..] == [];
    assert forall id :: Queued(request, id) == 0;
  }

  // ---------- what an error means ----------

  /** The callers answered with an error, or about to be, are those refused. */
  ghost predicate ErrMeansRefused(s: State) {
    && (forall id :: id in s.refused ==>
          (id in s.answers && !s.answers[id]) || (s.pushing == Reply(false) && id in s.callbacks))
    && (forall id :: id in s.answers && !s.answers[id] ==> id in s.refused)
    && (s.pushing == Reply(false) ==> forall id :: id in s.callbacks ==> id in s.refused)
  }

  lemma AnswerKeepsErr(s: State, e: Event)
    requires CallbacksConserved(s) && ErrMeansRefused(s) && Enabled(s, e) && e.Answering?
    ensures ErrMeansRefused(Step(s, e))
  {
    hide Places;
    forall id | id in s.callbacks
      ensures id !in s.answers
    {
      assert Places(s, id) == One(id in s.waiters);
      CallbackIsPending(s, id);
    }
  }

  /** Nobody is answered by a call of his own and waits for the push loop as well. */
  lemma OutsideKeepsErr(s: State, i: nat)
    requires CallbacksConserved(s) && ErrMeansRefused(s) && Enabled(s, Outside(i))
    ensures ErrMeansRefused(Step(s, Outside(i)))
  {
    hide Places;
    var t := s.outside[i];
    if !t.notify && t.ending.Answer? {
      var id := t.ending.id;
      assert Places(s, id) == One(id in s.waiters);
      TailIsPending(s, i, id);
      TailIsNoCallback(s, i, id);
    }
  }

  lemma TailIsNoCallback(s: State, i: nat, id: nat)
    requires i < |s.outside| && s.outside[i].ending == Answer(id) && Places(s, id) == One(id in s.waiters)
    ensures id !in s.callbacks
  {
    hide Total, Queued;
    TotalReplace(s.outside, i, DONE, Carrier(id));
    HeldIsIn(s.callbacks, id);
  }

  lemma StepKeepsErr(s: State, e: Event)
    requires CallbacksConserved(s) && ErrMeansRefused(s) && Enabled(s, e)
    ensures ErrMeansRefused(Step(s, e))
  {
    hide Places, AllAnswered;
    match e
    case Answering => AnswerKeepsErr(s, e);
    case Outside(i) => OutsideKeepsErr(s, i);
    case PushLock(_) =>
    case ConfirmLock => assert s.pushing != Reply(false);
    case _ => OtherKeepsErr(s, e);
  }

  lemma OtherKeepsErr(s: State, e: Event)
    requires CallbacksConserved(s) && ErrMeansRefused(s) && Enabled(s, e)
    requires !e.Answering? && !e.Outside? && !e.PushLock? && !e.ConfirmLock?
    ensures ErrMeansRefused(Step(s, e))
  {
    hide Places;
  }

  /**
   In every reachable state each caller that waits is in one place, once, or answered. An Ok means
   that a revision holding its mutation was clean, or was pushed and confirmed; an error, exactly that
   the push of the round that took the caller failed.
   */
  lemma CallersAreAnsweredOnce(config: Config, events: seq<Event>, id: nat)
    ensures var s := Run(Initial(config), events);
            && Places(s, id) == One(id in s.waiters)
            && (id in s.answers ==> (s.answers[id] <==> id !in s.refused) && (s.answers[id] ==> id in s.settled))
  {
    FreshIsGood(config);
    RunKeepsGood(Initial(config), events);
    CallbackIsPending(Run(Initial(config), events), id);
  }

  /** Without a failed push nobody is ever refused. */
  lemma {:induction false} NobodyRefused(s: State, events: seq<Event>)
    requires forall i :: 0 <= i < |events| ==> events[i] != PushLock(true)
    ensures Run(s, events).refused == s.refused
    decreases |events|
  {
    if events != [] {
      NobodyRefused(if Enabled(s, events[0]) then Step(s, events[0]) else s, events[1..]);
    }
  }

  /** So a run without a failed push gives every answer as Ok. */
  lemma NoFailureNoError(config: Config, events: seq<Event>, id: nat)
    requires forall i :: 0 <= i < |events| ==> events[i] != PushLock(true)
    ensures var s := Run(Initial(config), events);
            id in s.answers ==> s.answers[id]
  {
    CallersAreAnsweredOnce(config, events, id);
    NobodyRefused(Initial(config), events);
  }

  lemma {:induction false} AnswersStay(s: State, events: seq<Event>, id: nat)
    requires CallbacksConserved(s) && id in s.answers
    ensures id in Run(s, events).answers && Run(s, events).answers[id] == s.answers[id]
    decreases |events|
  {
    hide CallbacksConserved, Step, Enabled;
    if events != [] {
      if Enabled(s, events[0]) {
        StepKeepsCallbacks(s, events[0]);
        AnswersAreFinal(s, events[0], id);
        AnswersStay(Step(s, events[0]), events[1..], id);
      } else {
        AnswersStay(s, events[1..], id);
      }
    }
  }

  // ---------- no change forgotten by the dump loop ----------

  /** The dump loop will still hear, or has heard, that there is something to dump. */
  ghost predicate NewsOnTheWay(s: State) {
    || s.notifications > 0
    || s.dumping.Received?
    || s.pushTail.notify
    || s.dumpTail.notify
    || exists i :: 0 <= i < |s.outside| && s.outside[i].notify
  }

  /**
   From its subscription on, and as long as it runs, the dump loop is told of every change that is not
   dumped, but for what was due already when it subscribed and has not been followed by a notification.
   */
  ghost predicate DumpOnTheWay(s: State) {
    && (s.config.needsDump && s.dumping.Hears() && !s.unheard ==> NewsOnTheWay(s))
    && (s.unheard ==> s.config.needsDump && s.dumping.Listen? && s.notifications == 0)
  }

  lemma OutsideKeepsDump(s: State, i: nat)
    requires DumpOnTheWay(s) && Enabled(s, Outside(i))
    ensures DumpOnTheWay(Step(s, Outside(i)))
  {
    var t := Step(s, Outside(i));
    if t.config.needsDump && t.dumping.Listen? && !t.unheard && t.notifications == 0
       && !s.pushTail.notify && !s.dumpTail.notify
    {
      var k :| 0 <= k < |s.outside| && s.outside[k].notify;
      assert t.outside[k].notify;
    }
  }

  lemma CallKeepsDump(s: State, e: Event)
    requires DumpOnTheWay(s) && Enabled(s, e) && (e.Mutate? || e.Merge?)
    ensures DumpOnTheWay(Step(s, e))
  {
    var t := Step(s, e);
    assert t.outside[..|s.outside|] == s.outside;
    if t.outside[|s.outside|].notify {
      assert NewsOnTheWay(t);
    } else if NewsOnTheWay(s) {
      assert forall i :: 0 <= i < |s.outside| ==> t.outside[i] == s.outside[i];
      assert NewsOnTheWay(t);
    }
  }

  lemma StepKeepsDump(s: State, e: Event)
    requires DumpOnTheWay(s) && Enabled(s, e)
    ensures DumpOnTheWay(Step(s, e))
  {
    match e
    case Mutate(_, _, _) => CallKeepsDump(s, e);
    case Merge(_, _) => CallKeepsDump(s, e);
    case Outside(i) => OutsideKeepsDump(s, i);
    case _ =>
      assert Step(s, e).outside == s.outside;
  }

  lemma {:induction false} RunKeepsDump(s: State, events: seq<Event>)
    requires DumpOnTheWay(s)
    ensures DumpOnTheWay(Run(s, events))
    decreases |events|
  {
    hide DumpOnTheWay, Step, Enabled;
    if events != [] {
      if Enabled(s, events[0]) {
        StepKeepsDump(s, events[0]);
        RunKeepsDump(Step(s, events[0]), events[1..]);
      } else {
        RunKeepsDump(s, events[1..]);
      }
    }
  }

  /**
   In every reachable state a change that a running dump loop has not dumped is on its way to it,
   unless it is unheard.
   */
  lemma ChangesReachDumpLoop(config: Config, events: seq<Event>)
    ensures var s := Run(Initial(config), events);
            && (s.config.needsDump && s.dumping.Hears() && !s.unheard ==> NewsOnTheWay(s))
            && (s.unheard ==> s.config.needsDump && s.dumping.Listen? && s.notifications == 0)
  {
    RunKeepsDump(Initial(config), events);
  }

  // ---------- coming to rest ----------

  /** A step of a loop, or of a call that has already changed the config; pushes succeed. */
  predicate LoopStep(e: Event) {
    !e.Mutate? && !e.Merge? && e != PushLock(true)
  }

  function TailWeight(t: Tail, clean: bool): nat {
    (if !t.notify then 0 else if clean then 3 else 7)
    + match t.ending
      case Nothing => 0
      case Send(_) => if clean then 7 else 4
      case Answer(_) => 1
  }

  function Weigher(clean: bool): Tail -> nat {
    (t: Tail) => TailWeight(t, clean)
  }

  function Sent(s: State, clean: bool): nat {
    if clean then 6 * |s.queue| + 2 * s.notifications else 3 * |s.queue| + 6 * s.notifications
  }

  lemma AdvanceDescends(s: State, t: Tail, clean: bool)
    requires t != DONE
    ensures Sent(Advance(s, t), clean) + TailWeight(Rest(t), clean) < Sent(s, clean) + TailWeight(t, clean)
  {
  }

  /** What the loops still have to do before the config is clean. */
  function BusyWeight(s: State): nat {
    Total(s.outside, Weigher(false)) + TailWeight(s.pushTail, false) + TailWeight(s.dumpTail, false)
    + Sent(s, false)
    + (if s.dumping.Received? then 5 else if s.dumping.NotSubscribed? then 1 else 0)
    + match s.pushing
      case Receive => 0
      case Drain => 2
      case Confirm(_, _) => 9
      case Reply(_) => 1
  }

  /** What they still have to do once it is. */
  function CleanWeight(s: State): nat {
    Total(s.outside, Weigher(true)) + TailWeight(s.pushTail, true) + TailWeight(s.dumpTail, true)
    + Sent(s, true)
    + (if s.dumping.Received? || s.dumping.NotSubscribed? then 1 else 0)
    + match s.pushing
      case Receive => 0
      case Drain => 5
      case Confirm(_, _) => 5
      case Reply(_) => 1
  }

  function Weight(s: State): nat {
    if s.config.NeedsPush() then BusyWeight(s) else CleanWeight(s)
  }

  /** Has to be pushed; pushed and to be confirmed; clean. */
  function Phase(s: State): nat {
    if !s.config.NeedsPush() then 0
    else if s.pushing.Confirm? && s.config.status == Waiting(s.pushing.rev) then 1
    else 2
  }

  lemma OutsideDescends(s: State, i: nat)
    requires Enabled(s, Outside(i))
    ensures BusyWeight(Step(s, Outside(i))) < BusyWeight(s) && CleanWeight(Step(s, Outside(i))) < CleanWeight(s)
  {
    hide Total, TailWeight;
    AdvanceDescends(s, s.outside[i], false);
    AdvanceDescends(s, s.outside[i], true);
    TotalReplace(s.outside, i, Rest(s.outside[i]), Weigher(false));
    TotalReplace(s.outside, i, Rest(s.outside[i]), Weigher(true));
  }

  lemma TailDescends(s: State, e: Event)
    requires Enabled(s, e) && (e.PushTail? || e.DumpTail?)
    ensures BusyWeight(Step(s, e)) < BusyWeight(s) && CleanWeight(Step(s, e)) < CleanWeight(s)
  {
    hide Total, TailWeight;
    var t := if e.PushTail? then s.pushTail else s.dumpTail;
    AdvanceDescends(s, t, false);
    AdvanceDescends(s, t, true);
  }

  lemma PushStepDescends(s: State, e: Event)
    requires Enabled(s, e) && (e == PushLock(false) || e.ConfirmLock?)
    ensures Phase(Step(s, e)) < Phase(s) || (Phase(Step(s, e)) == Phase(s) && Weight(Step(s, e)) < Weight(s))
  {
    hide Total;
  }

  lemma OtherStepDescends(s: State, e: Event)
    requires Enabled(s, e) && (e.Recv? || e.DrainOne? || e.Answering? || e.DumpSubscribe? || e.DumpRecv? || e.DumpLock?)
    ensures Phase(Step(s, e)) == Phase(s) && Weight(Step(s, e)) < Weight(s)
  {
    hide Total;
  }

  /** Although each loop can set off the other, every step of either brings both closer to rest. */
  lemma LoopStepDescends(s: State, e: Event)
    requires Enabled(s, e) && LoopStep(e)
    ensures Phase(Step(s, e)) < Phase(s) || (Phase(Step(s, e)) == Phase(s) && Weight(Step(s, e)) < Weight(s))
  {
    hide BusyWeight, CleanWeight;
    match e
    case Outside(i) => OutsideDescends(s, i);
    case PushTail => TailDescends(s, e);
    case DumpTail => TailDescends(s, e);
    case PushLock(_) => PushStepDescends(s, e);
    case ConfirmLock => PushStepDescends(s, e);
    case _ => OtherStepDescends(s, e);
  }

  /** Nobody has anything left to do. */
  predicate AtRest(s: State) {
    && (forall i :: 0 <= i < |s.outside| ==> s.outside[i] == DONE)
    && s.pushTail == DONE && s.dumpTail == DONE
    && s.pushing.Receive? && s.queue == []
    && !s.dumping.NotSubscribed? && !s.dumping.Received? && (s.dumping.Listen? ==> s.notifications == 0)
  }

  lemma NotAtRest(s: State) returns (e: Event)
    requires !AtRest(s)
    ensures LoopStep(e) && Enabled(s, e)
  {
    if i :| 0 <= i < |s.outside| && s.outside[i] != DONE {
      e := Outside(i);
    } else if s.pushTail != DONE {
      e := PushTail;
    } else if s.dumpTail != DONE {
      e := DumpTail;
    } else if s.dumping.NotSubscribed? {
      e := DumpSubscribe;
    } else if s.dumping.Received? {
      e := DumpLock;
    } else if s.dumping.Listen? && s.notifications > 0 {
      e := DumpRecv;
    } else {
      e := match s.pushing
        case Receive => Recv
        case Drain => PushLock(false)
        case Confirm(_, _) => ConfirmLock
        case Reply(_) => Answering;
    }
  }

  /**
   At rest the config is pushed, a running dump loop has dumped all but the unheard, and every
   waiting caller is answered.
   */
  lemma RestIsClean(s: State)
    requires Awake(s) && Good(s) && AtRest(s)
    ensures !s.config.NeedsPush() && s.queue == []
    ensures DumpOnTheWay(s) && s.dumping.Listen? ==> (s.config.needsDump <==> s.unheard)
    ensures forall id :: id in s.waiters ==>
              id in s.answers && (s.answers[id] <==> id !in s.refused) && (s.answers[id] ==> id in s.settled)
  {
    forall id | id in s.waiters
      ensures id in s.answers
    {
      assert Places(s, id) == One(id in s.waiters);
      NobodyCarries(s.outside, id);
    }
  }

  lemma {:induction false} NobodyCarries(tails: seq<Tail>, id: nat)
    requires forall i :: 0 <= i < |tails| ==> tails[i] == DONE
    ensures Total(tails, Carrier(id)) == 0
  {
    if tails != [] {
      NobodyCarries(tails[1..], id);
    }
  }

  /** Picks what happens next among the steps that can. */
  ghost predicate Schedules(pick: State -> Event) {
    forall s :: !AtRest(s) ==> LoopStep(pick(s)) && Enabled(s, pick(s))
  }

  /** The run `events` from `s` is the scheduler's. */
  ghost predicate Picked(s: State, events: seq<Event>, pick: State -> Event)
    decreases |events|
  {
    events == []
    || (!AtRest(s) && events[0] == pick(s) && Enabled(s, events[0]) && Picked(Step(s, events[0]), events[1..], pick))
  }

  /**
   Once outside mutations stop and pushes succeed, the loops come to rest whatever order their steps
   are taken in: the run the scheduler picks is finite.
   */
  lemma {:induction false} ComesToRest(s: State, pick: State -> Event) returns (events: seq<Event>)
    requires Schedules(pick)
    ensures AtRest(Run(s, events)) && Picked(s, events, pick)
    decreases Phase(s), Weight(s)
  {
    hide Phase, Weight, Step, Enabled, AtRest;
    if AtRest(s) {
      events := [];
    } else {
      var e := pick(s);
      LoopStepDescends(s, e);
      var more := ComesToRest(Step(s, e), pick);
      events := [e] + more;
      assert events[1..] == more;
    }
  }

  lemma {:induction false} PickRefusesNobody(s: State, events: seq<Event>, pick: State -> Event)
    requires Schedules(pick) && Picked(s, events, pick)
    ensures Run(s, events).refused == s.refused
    decreases |events|
  {
    if events != [] {
      assert LoopStep(pick(s));
      PickRefusesNobody(Step(s, events[0]), events[1..], pick);
    }
  }

  /**
   From every state a fresh config can reach, under every scheduler: the config ends clean, no
   request is left, and every caller that waits has its answer: an error exactly if a push that had
   failed by then took it, else Ok, and then its mutation was clean or pushed and confirmed. A dump
   loop that has not exited leaves a change undumped exactly if it was due when the loop subscribed
   and nothing was notified after.
   */
  lemma LoopsQuiesce(config: Config, events: seq<Event>, pick: State -> Event) returns (more: seq<Event>)
    requires Schedules(pick)
    ensures Picked(Run(Initial(config), events), more, pick)
    ensures var s := Run(Run(Initial(config), events), more);
            && AtRest(s) && !s.config.NeedsPush() && s.queue == []
            && (s.dumping.Exited? || (s.dumping.Listen? && (s.config.needsDump <==> s.unheard)))
            && s.refused == Run(Initial(config), events).refused
            && forall id :: id in s.waiters ==>
                 id in s.answers && (s.answers[id] <==> id !in s.refused) && (s.answers[id] ==> id in s.settled)
  {
    var s0, s := Initial(config), Run(Initial(config), events);
    FreshIsGood(config);
    RunKeepsGood(s0, events);
    RunKeepsAwake(s0, events);
    more := ComesToRest(s, pick);
    RunKeepsGood(s, more);
    RunKeepsAwake(s, more);
    RunKeepsDump(s0, events);
    RunKeepsDump(s, more);
    RestIsClean(Run(s, more));
    PickRefusesNobody(s, more, pick);
  }

  // ---------- where it does not come to rest ----------

  lemma RunsOn(s: State, e: Event, rest: seq<Event>)
    requires Enabled(s, e)
    ensures Run(s, [e] + rest) == Run(Step(s, e), rest)
  {
    assert ([e] + rest)[1..] == rest;
  }

  lemma Stops(s: State)
    ensures Run(s, []) == s
  {
  }

  lemma FailingRound(s: State)
    requires s.config.NeedsPush() && !s.config.needsDump
    requires s.pushing.Receive? && s.queue == [None] && s.callbacks == [] && s.pushTail == DONE
    ensures var s1 := Step(s, Recv);
            var s2 := Step(s1, PushLock(true));
            Enabled(s2, PushTail) && Enabled(Step(s2, PushTail), Answering) && Step(Step(s2, PushTail), Answering) == s
  {
    var s1 := Step(s, Recv);
    var s2 := Step(s1, PushLock(true));
    var s3 := Step(s2, PushTail);
    assert s1.queue == [] && s3.queue == [] + [None] == [None];
    assert AllAnswered(s.answers, [], false) == s.answers;
  }

  /** A push that keeps failing asks for itself again: the loop is back where it was, and never waits. */
  lemma FailingPushRepeats(s: State)
    requires s.config.NeedsPush() && !s.config.needsDump
    requires s.pushing.Receive? && s.queue == [None] && s.callbacks == [] && s.pushTail == DONE
    ensures Run(s, [Recv, PushLock(true), PushTail, Answering]) == s
  {
    hide Run;
    var s1 := Step(s, Recv);
    var s2 := Step(s1, PushLock(true));
    var s3 := Step(s2, PushTail);
    FailingRound(s);
    Stops(s);
    RunsOn(s3, Answering, []);
    RunsOn(s2, PushTail, [Answering] + []);
    RunsOn(s1, PushLock(true), [PushTail] + ([Answering] + []));
    RunsOn(s, Recv, [PushLock(true)] + ([PushTail] + ([Answering] + [])));
    assert [Recv] + ([PushLock(true)] + ([PushTail] + ([Answering] + [])))
        == [Recv, PushLock(true), PushTail, Answering];
  }

  /** A merge that is through before the dump loop subscribes: all is at rest, and the change is not dumped. */
  lemma LateSubscriberMissesChange()
    ensures var before := Config(Clean(0), false, {});
            var s := Run(Initial(before), [Merge(Config(Clean(1), true, {}), true), Outside(0), DumpSubscribe]);
            AtRest(s) && s.dumping.Listen? && s.config.needsDump && s.unheard
  {
    var s0 := Initial(Config(Clean(0), false, {}));
    var merge := Merge(Config(Clean(1), true, {}), true);
    var s1 := Step(s0, merge);
    var s2 := Step(s1, Outside(0));
    var s3 := Step(s2, DumpSubscribe);
    Stops(s3);
    RunsOn(s2, DumpSubscribe, []);
    RunsOn(s1, Outside(0), [DumpSubscribe] + []);
    RunsOn(s0, merge, [Outside(0)] + ([DumpSubscribe] + []));
    assert [merge] + ([Outside(0)] + ([DumpSubscribe] + [])) == [merge, Outside(0), DumpSubscribe];
  }

  /** One undisturbed push sends two notifications, one more than the dump loop can miss. */
  lemma PushOverrunsDumpLoop(s: State)
    requires s.config.status.Dirty? && s.dumping.Listen? && s.dumpTail == DONE
    ensures var t := PushRound(s, false);
            t.notifications == s.notifications + 2 && t.config.needsDump
            && Enabled(t, DumpRecv) && Step(t, DumpRecv).dumping.Exited? && Step(t, DumpRecv).config.needsDump
  {
    hide DrainAll;
    var d := DrainAll(s);
    assert d.config == s.config && d.notifications == s.notifications;
    assert d.dumping == s.dumping && d.dumpTail == s.dumpTail;
  }

  /** Whenever the dump loop receives in the run, it has missed nothing. */
  ghost predicate NeverOverrun(s: State, events: seq<Event>)
    decreases |events|
  {
    events == []
    || if Enabled(s, events[0]) then
         (events[0].DumpRecv? ==> s.notifications == 1) && NeverOverrun(Step(s, events[0]), events[1..])
       else NeverOverrun(s, events[1..])
  }

  /** The dump loop lives through a run exactly if it never receives with more than one notification behind it. */
  lemma {:induction false} DumpLoopExitsExactly(s: State, events: seq<Event>)
    requires !s.dumping.Exited?
    ensures Run(s, events).dumping.Exited? <==> !NeverOverrun(s, events)
    decreases |events|
  {
    if events != [] {
      if Enabled(s, events[0]) {
        if Step(s, events[0]).dumping.Exited? {
          ExitedForGood(Step(s, events[0]), events[1..]);
        } else {
          DumpLoopExitsExactly(Step(s, events[0]), events[1..]);
        }
      } else {
        DumpLoopExitsExactly(s, events[1..]);
      }
    }
  }

  lemma {:induction false} ExitedForGood(s: State, events: seq<Event>)
    requires s.dumping.Exited?
    ensures Run(s, events).dumping.Exited?
    decreases |events|
  {
    if events != [] {
      ExitedForGood(if Enabled(s, events[0]) then Step(s, events[0]) else s, events[1..]);
    }
  }

  /** Once it has exited, a change stays undumped whatever happens. */
  lemma {:induction false} UndumpedForGood(s: State, events: seq<Event>)
    requires s.dumping.Exited? && s.config.needsDump
    ensures Run(s, events).dumping.Exited? && Run(s, events).config.needsDump
    decreases |events|
  {
    if events != [] {
      UndumpedForGood(if Enabled(s, events[0]) then Step(s, events[0]) else s, events[1..]);
    }
  }
}
