/**
 A shared config and the two loops that serve it (config/wrapper.rs, worker/sync_config.rs). The
 foreign config is reduced to whether it is clean, changed or waiting for a push to be confirmed,
 and whether it has to be dumped.
 */
module ConfigWrapper {
  import opened Wrappers

  // ---------- the config ----------

  datatype Status = Clean(rev: nat) | Dirty(rev: nat) | Waiting(rev: nat)

  /** `content` names the mutations the config holds. */
  datatype Config = Config(status: Status, needsDump: bool, content: set<nat>) {
    predicate NeedsPush() {
      !status.Clean?
    }

    /** The first change after a push opens a new revision; a mutation may also change nothing. */
    function Mutate(m: nat, changes: bool): Config {
      if !changes then this.(content := content + {m})
      else Config(if status.Dirty? then status else Dirty(status.rev + 1), true, content + {m})
    }

    function Push(): Config
      requires NeedsPush()
    {
      if status.Dirty? then this.(status := Waiting(status.rev), needsDump := true) else this
    }

    function ConfirmPushed(rev: nat): Config {
      if status == Waiting(rev) then this.(status := Clean(rev), needsDump := true) else this
    }

    /** Merging keeps the revision as it is, opens a later one, or ends clean; it never settles a dump. */
    predicate CanMergeTo(after: Config) {
      content <= after.content && (needsDump ==> after.needsDump)
      && (after.status == status || after.status.Clean? || (after.status.Dirty? && after.status.rev > status.rev))
    }
  }

  // ---------- what is left to do once the lock is released ----------

  datatype Ending = Nothing | Send(cb: Option<nat>) | Answer(id: nat)

  datatype Tail = Tail(notify: bool, ending: Ending)

  const DONE: Tail := Tail(false, Nothing)

  function AfterMutate(c: Config, canSendPushRequest: bool, cb: Option<nat>): Tail {
    Tail(c.needsDump,
         if c.NeedsPush() && canSendPushRequest then Send(cb)
         else if cb.Some? then Answer(cb.value) else Nothing)
  }

  function AfterMerge(c: Config, accepted: bool): Tail {
    Tail(accepted, if c.NeedsPush() then Send(None) else Nothing)
  }

  // ---------- the loops ----------

  datatype Pushing =
    | Receive
    | Drain
    | Confirm(rev: nat, pushed: set<nat>)
    | Reply(ok: bool)

  /** The dump loop subscribes when it first runs, and hears nothing of what was sent before. */
  datatype Dumping = NotSubscribed | Listen | Received | Exited {
    predicate Hears() {
      Listen? || Received?
    }
  }

  datatype State = State(
    config: Config,
    queue: seq<Option<nat>>,  // push requests, with the callbacks of those who wait
    notifications: nat,  // sent since the dump loop last received
    dumping: Dumping,
    dumpTail: Tail,
    pushing: Pushing,
    pushTail: Tail,
    callbacks: seq<nat>,  // taken from the queue, not answered yet
    outside: seq<Tail>,  // calls of other tasks that have released the lock
    answers: map<nat, bool>,
    // history
    waiters: set<nat>,
    settled: set<nat>,  // mutations held by a revision that was clean, or pushed and confirmed
    refused: set<nat>,  // callers taken by a round of the push loop whose push failed
    unheard: bool)  // a dump was due when the dump loop subscribed, and nothing has been notified since

  datatype Event =
    | Mutate(m: nat, changes: bool, awaits: bool)
    | Merge(after: Config, accepted: bool)
    | Outside(i: nat)
    | Recv
    | DrainOne
    | PushLock(fails: bool)
    | PushTail
    | ConfirmLock
    | Answering
    | DumpSubscribe
    | DumpRecv
    | DumpLock
    | DumpTail

  predicate Enabled(s: State, e: Event) {
    match e
    case Mutate(m, _, _) => m !in s.waiters && m !in s.config.content
    case Merge(after, accepted) => s.config.CanMergeTo(after) && (accepted || after == s.config)
    case Outside(i) => i < |s.outside| && s.outside[i] != DONE
    case Recv => s.pushing.Receive? && s.queue != []
    case DrainOne => s.pushing.Drain? && s.queue != []
    case PushLock(_) => s.pushing.Drain?
    case PushTail => s.pushTail != DONE
    case ConfirmLock => s.pushing.Confirm? && s.pushTail == DONE
    case Answering => s.pushing.Reply? && s.pushTail == DONE
    case DumpSubscribe => s.dumping.NotSubscribed?
    case DumpRecv => s.dumping.Listen? && s.dumpTail == DONE && s.notifications > 0
    case DumpLock => s.dumping.Received?
    case DumpTail => s.dumpTail != DONE
  }

  function Notify(s: State): State {
    if s.dumping.Hears() then s.(notifications := s.notifications + 1, unheard := false) else s
  }

  function End(s: State, ending: Ending): State {
    match ending
    case Nothing => s
    case Send(cb) => s.(queue := s.queue + [cb])
    case Answer(id) => s.(answers := s.answers[id := true])
  }

  /** First the change notification, then the push request or the answer. */
  function Advance(s: State, t: Tail): State {
    if t.notify then Notify(s) else End(s, t.ending)
  }

  function Rest(t: Tail): Tail {
    if t.notify then Tail(false, t.ending) else DONE
  }

  function Locked(s: State, c: Config): State {
    s.(config := c, settled := if c.NeedsPush() then s.settled else s.settled + c.content)
  }

  function Taken(s: State): State
    requires s.queue != []
  {
    s.(queue := s.queue[1..], callbacks := if s.queue[0].Some? then s.callbacks + [s.queue[0].value] else s.callbacks)
  }

  function AllAnswered(answers: map<nat, bool>, ids: seq<nat>, ok: bool): map<nat, bool> {
    answers + map id | id in ids :: ok
  }

  function Step(s: State, e: Event): State
    requires Enabled(s, e)
  {
    match e
    case Mutate(m, changes, awaits) =>
      var c := s.config.Mutate(m, changes);
      Locked(s, c).(outside := s.outside + [AfterMutate(c, true, if awaits then Some(m) else None)],
                    waiters := if awaits then s.waiters + {m} else s.waiters)
    case Merge(after, accepted) => Locked(s, after).(outside := s.outside + [AfterMerge(after, accepted)])
    case Outside(i) => Advance(s, s.outside[i]).(outside := s.outside[i := Rest(s.outside[i])])
    case Recv => Taken(s).(pushing := Drain)
    case DrainOne => Taken(s)
    case PushLock(fails) =>
      if !s.config.NeedsPush() then
        Locked(s, s.config).(pushing := Reply(true), pushTail := AfterMutate(s.config, true, None))
      else if fails then
        Locked(s, s.config).(pushing := Reply(false), pushTail := AfterMutate(s.config, true, None),
                             refused := s.refused + set id | id in s.callbacks)
      else
        var c := s.config.Push();
        Locked(s, c).(pushing := Confirm(c.status.rev, c.content), pushTail := AfterMutate(c, true, None))
    case PushTail => Advance(s, s.pushTail).(pushTail := Rest(s.pushTail))
    case ConfirmLock =>
      var c := s.config.ConfirmPushed(s.pushing.rev);
      var t := Locked(s, c);
      t.(settled := t.settled + s.pushing.pushed, pushing := Reply(true), pushTail := AfterMutate(c, false, None))
    case Answering =>
      s.(answers := AllAnswered(s.answers, s.callbacks, s.pushing.ok), callbacks := [], pushing := Receive)
    case DumpSubscribe => s.(dumping := Listen, notifications := 0, unheard := s.config.needsDump)
    case DumpRecv =>
      if s.notifications > 1 then s.(dumping := Exited, notifications := 0)
      else s.(dumping := Received, notifications := 0)
    case DumpLock =>
      var c := s.config.(needsDump := false);
      Locked(s, c).(dumping := Listen, dumpTail := AfterMutate(c, true, None))
    case DumpTail => Advance(s, s.dumpTail).(dumpTail := Rest(s.dumpTail))
  }

  // ---------- whole calls ----------

  /** What a call does after its lock when no other task comes in between. */
  function Finish(s: State, t: Tail): State {
    End(if t.notify then Notify(s) else s, t.ending)
  }

  function DrainAll(s: State): (t: State)
    ensures t == s.(queue := [], callbacks := t.callbacks)
    decreases |s.queue|
  {
    if s.queue == [] then s else DrainAll(Taken(s))
  }

  /** Mutate to push, then confirm what was pushed. */
  function PushAndConfirm(s: State, fails: bool): State {
    if !s.config.NeedsPush() || fails then
      Finish(Locked(s, s.config), AfterMutate(s.config, true, None))
    else
      var pushed := s.config.Push();
      var s1 := Finish(Locked(s, pushed), AfterMutate(pushed, true, None));
      var confirmed := pushed.ConfirmPushed(pushed.status.rev);
      var s2 := Finish(Locked(s1, confirmed), AfterMutate(confirmed, false, None));
      s2.(settled := s2.settled + pushed.content)
  }

  /** One round of the push loop when no other task comes in between. */
  function PushRound(s: State, fails: bool): State {
    var t := PushAndConfirm(DrainAll(s), fails);
    t.(refused := if s.config.NeedsPush() && fails then t.refused + (set id | id in t.callbacks) else t.refused,
       answers := AllAnswered(t.answers, t.callbacks, !(s.config.NeedsPush() && fails)), callbacks := [])
  }

  /** One turn of the dump loop when no other task comes in between. */
  function DumpTurn(s: State): State
    requires Enabled(s, DumpRecv)
  {
    if s.notifications > 1 then Step(s, DumpRecv)
    else
      var t := Step(Step(s, DumpRecv), DumpLock);
      Finish(t, t.dumpTail).(dumpTail := DONE)
  }

  lemma CallKeepsCallbacks(s: State, callbacks: seq<nat>, c: Config, t: Tail)
    ensures Finish(Locked(s.(callbacks := callbacks), c), t) == Finish(Locked(s, c), t).(callbacks := callbacks)
  {
  }

  /** The callbacks at hand play no part in pushing. */
  lemma KeepsCallbacks(s: State, callbacks: seq<nat>, fails: bool)
    ensures PushAndConfirm(s.(callbacks := callbacks), fails) == PushAndConfirm(s, fails).(callbacks := callbacks)
  {
    hide Finish, Locked;
    if !s.config.NeedsPush() || fails {
      CallKeepsCallbacks(s, callbacks, s.config, AfterMutate(s.config, true, None));
    } else {
      var pushed := s.config.Push();
      var t := AfterMutate(pushed, true, None);
      CallKeepsCallbacks(s, callbacks, pushed, t);
      var s1 := Finish(Locked(s, pushed), t);
      var confirmed := pushed.ConfirmPushed(pushed.status.rev);
      CallKeepsCallbacks(s1, callbacks, confirmed, AfterMutate(confirmed, false, None));
    }
  }

  class ConfigWrapper {
    var inner: Config
    var pushRequests: seq<Option<nat>>
    var changeNotifications: nat
    var dumping: Dumping
    var replies: map<nat, bool>
    ghost var waiters: set<nat>
    ghost var settled: set<nat>
    ghost var refused: set<nat>
    ghost var unheard: bool

    /** A restored config may need a push at once. */
    constructor (config: Config)
      ensures View() == Initial(config)
      ensures pushRequests == (if config.NeedsPush() then [None] else []) && dumping.NotSubscribed?
    {
      inner := config;
      pushRequests := if config.NeedsPush() then [None] else [];
      changeNotifications, dumping, replies := 0, NotSubscribed, map[];
      waiters, settled, refused, unheard := {}, if config.NeedsPush() then {} else config.content, {}, false;
    }

    ghost function View(): State
      reads this
    {
      State(inner, pushRequests, changeNotifications, dumping, DONE, Receive, DONE, [], [], replies,
            waiters, settled, refused, unheard)
    }

    method DoMutate<T>(canSendPushRequest: bool, f: Config -> (Config, T), cb: Option<nat>) returns (ret: T)
      modifies this
      ensures ret == f(old(inner)).1
      ensures var c := f(old(inner)).0;
              View() == Finish(Locked(old(View()), c), AfterMutate(c, canSendPushRequest, cb))
    {
      var result := f(inner);
      inner, ret := result.0, result.1;
      settled := if inner.NeedsPush() then settled else settled + inner.content;
      var needsPush, changed := inner.NeedsPush(), inner.needsDump;

      if changed {
        Notify();
      }
      if needsPush && canSendPushRequest {
        pushRequests := pushRequests + [cb];
      } else if cb.Some? {
        replies := replies[cb.value := true];
      }
    }

    method Notify()
      modifies this`changeNotifications, this`unheard
      ensures changeNotifications == old(changeNotifications) + (if dumping.Hears() then 1 else 0)
      ensures unheard == (old(unheard) && !dumping.Hears())
    {
      if dumping.Hears() {
        changeNotifications, unheard := changeNotifications + 1, false;
      }
    }

    method Mutate(m: nat, changes: bool)
      modifies this
      ensures var c := old(inner).Mutate(m, changes);
              View() == Finish(Locked(old(View()), c), AfterMutate(c, true, None))
    {
      var _ := DoMutate(true, (c: Config) => (c.Mutate(m, changes), ()), None);
    }

    /** The caller waits on the reply channel `m`. */
    method MutateAndAwaitPush(m: nat, changes: bool)
      modifies this
      ensures var c := old(inner).Mutate(m, changes);
              View() == Finish(Locked(old(View()), c), AfterMutate(c, true, Some(m))).(waiters := old(waiters) + {m})
    {
      var _ := DoMutate(true, (c: Config) => (c.Mutate(m, changes), ()), Some(m));
      waiters := waiters + {m};
    }

    /** `after` is what the foreign merge makes of the config; nothing is done for no messages. */
    method Merge(messages: nat, numMerged: nat, after: Config)
      requires inner.CanMergeTo(after) && (numMerged == 0 ==> after == inner)
      modifies this
      ensures View() == if messages == 0 then old(View())
                        else Finish(Locked(old(View()), after), AfterMerge(after, numMerged > 0))
    {
      if messages == 0 {
        return;
      }
      inner := after;
      settled := if inner.NeedsPush() then settled else settled + inner.content;
      var needsPush := inner.NeedsPush();
      if numMerged > 0 {
        Notify();
      }
      if needsPush {
        pushRequests := pushRequests + [None];
      }
    }

    method ConfirmPushed(rev: nat)
      modifies this
      ensures var c := old(inner).ConfirmPushed(rev);
              View() == Finish(Locked(old(View()), c), AfterMutate(c, false, None))
    {
      var _ := DoMutate(false, (c: Config) => (c.ConfirmPushed(rev), ()), None);
    }

    /** Takes every request there is, and the callbacks of those who wait. */
    method TakeRequests() returns (callbacks: seq<nat>)
      requires pushRequests != []
      modifies this`pushRequests
      ensures pushRequests == [] && callbacks == DrainAll(old(View())).callbacks
    {
      callbacks := [];
      if pushRequests[0].Some? {
        callbacks := callbacks + [pushRequests[0].value];
      }
      pushRequests := pushRequests[1..];
      while pushRequests != []
        invariant DrainAll(old(View()).(queue := pushRequests, callbacks := callbacks)) == DrainAll(old(View()))
        decreases |pushRequests|
      {
        if pushRequests[0].Some? {
          callbacks := callbacks + [pushRequests[0].value];
        }
        pushRequests := pushRequests[1..];
      }
    }

    method Push(fails: bool) returns (ok: bool)
      modifies this
      ensures ok == !(old(inner).NeedsPush() && fails)
      ensures View() == PushAndConfirm(old(View()), fails)
    {
      var pending := DoMutate(true, (c: Config) =>
          if !c.NeedsPush() then (c, Ok(None))
          else if fails then (c, Err("Empty push data"))
          else (c.Push(), Ok(Some(c.Push().status.rev))), None);
      ghost var pushed := inner.content;
      if pending.Ok? && pending.value.Some? {
        ConfirmPushed(pending.value.value);
        settled := settled + pushed;
      }
      ok := pending.Ok?;
    }

    /** One round of `push_config_if_needed`. */
    method PushConfigIfNeeded(fails: bool)
      requires pushRequests != []
      modifies this
      ensures View() == PushRound(old(View()), fails)
    {
      var callbacks := TakeRequests();
      ghost var drained := View();
      var ok := Push(fails);
      KeepsCallbacks(drained, callbacks, fails);
      refused := if ok then refused else refused + set id | id in callbacks;
      replies := AllAnswered(replies, callbacks, ok);
    }

    /** `subscribe`, as the first thing the dump loop does. */
    method Subscribe()
      requires dumping.NotSubscribed?
      modifies this
      ensures View() == Step(old(View()), DumpSubscribe)
    {
      dumping, changeNotifications, unheard := Listen, 0, inner.needsDump;
    }

    /** One turn of `dump_config_if_needed`: a loop that has missed a notification ends. */
    method DumpConfigIfNeeded()
      requires dumping.Listen? && changeNotifications > 0
      modifies this
      ensures View() == DumpTurn(old(View()))
    {
      var received := changeNotifications;
      changeNotifications := 0;
      if received > 1 {
        dumping := Exited;
        return;
      }
      var _ := DoMutate(true, (c: Config) => (c.(needsDump := false), ()), None);
    }
  }

  // ---------- runs ----------

  function Initial(config: Config): State {
    State(config, if config.NeedsPush() then [None] else [], 0, NotSubscribed, DONE, Receive, DONE, [], [], map[], {},
          if config.NeedsPush() then {} else config.content, {}, false)
  }

  function Run(s: State, events: seq<Event>): State
    decreases |events|
  {
    if events == [] then s
    else if Enabled(s, events[0]) then Run(Step(s, events[0]), events[1..])
    else Run(s, events[1..])
  }
}
