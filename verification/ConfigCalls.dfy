/**
 The calls of a config wrapper and the rounds of its loops when no other task comes in between
 (config/wrapper.rs, worker/sync_config.rs): each is a run of the steps of `ConfigSync`, and what it
 does field by field.
 */
module ConfigCalls {
  import opened Wrappers

  import opened ConfigWrapper
  import opened ConfigSync

  // ---------- whole calls are runs of these steps ----------

  /** The tail of a call of another task, run to its end at once. */
  lemma OutsideFinishes(s: State, i: nat) returns (events: seq<Event>)
    requires i < |s.outside|
    ensures Run(s, events) == Finish(s, s.outside[i]).(outside := s.outside[i := DONE])
  {
    var t := s.outside[i];
    if t == DONE {
      events := [];
      assert s.outside[i := DONE] == s.outside;
    } else {
      var s1 := Step(s, Outside(i));
      Stops(s1);
      RunsOn(s, Outside(i), []);
      events := [Outside(i)] + [];
      if s1.outside[i] != DONE {
        var s2 := Step(s1, Outside(i));
        Stops(s2);
        RunsOn(s1, Outside(i), []);
        RunsOn(s, Outside(i), events);
        events := [Outside(i)] + events;
        assert s.outside[i := Rest(t)][i := DONE] == s.outside[i := DONE];
      } else if t.notify {
        assert Finish(s, t) == Notify(s);
      }
    }
  }

  /** `mutate` and `mutate_and_await_push`, undisturbed, are such a run. */
  lemma MutateIsARun(s: State, m: nat, changes: bool, awaits: bool) returns (events: seq<Event>)
    requires Enabled(s, Mutate(m, changes, awaits))
    ensures var c := s.config.Mutate(m, changes);
            Run(s, events) == Finish(Locked(s, c), AfterMutate(c, true, if awaits then Some(m) else None))
                              .(outside := s.outside + [DONE], waiters := if awaits then s.waiters + {m} else s.waiters)
  {
    var s1 := Step(s, Mutate(m, changes, awaits));
    var more := OutsideFinishes(s1, |s.outside|);
    RunsOn(s, Mutate(m, changes, awaits), more);
    events := [Mutate(m, changes, awaits)] + more;
    var c := s.config.Mutate(m, changes);
    var t := AfterMutate(c, true, if awaits then Some(m) else None);
    assert (s.outside + [t])[|s.outside| := DONE] == s.outside + [DONE];
  }

  /** So is `merge`, when it is given messages. */
  lemma MergeIsARun(s: State, after: Config, accepted: bool) returns (events: seq<Event>)
    requires Enabled(s, Merge(after, accepted))
    ensures Run(s, events) == Finish(Locked(s, after), AfterMerge(after, accepted)).(outside := s.outside + [DONE])
  {
    var s1 := Step(s, Merge(after, accepted));
    var more := OutsideFinishes(s1, |s.outside|);
    RunsOn(s, Merge(after, accepted), more);
    events := [Merge(after, accepted)] + more;
    assert (s.outside + [AfterMerge(after, accepted)])[|s.outside| := DONE] == s.outside + [DONE];
  }

  lemma DumpTailFinishes(s: State) returns (events: seq<Event>)
    ensures Run(s, events) == Finish(s, s.dumpTail).(dumpTail := DONE)
  {
    events := [];
    if s.dumpTail != DONE {
      var s1 := Step(s, DumpTail);
      Stops(s1);
      RunsOn(s, DumpTail, []);
      events := [DumpTail] + [];
      if s1.dumpTail != DONE {
        Stops(Step(s1, DumpTail));
        RunsOn(s1, DumpTail, []);
        RunsOn(s, DumpTail, events);
        events := [DumpTail] + events;
      }
    }
  }

  /** What `DumpConfigIfNeeded` does is one such run. */
  lemma DumpTurnIsARun(s: State) returns (events: seq<Event>)
    requires Enabled(s, DumpRecv)
    ensures Run(s, events) == DumpTurn(s)
  {
    var s1 := Step(s, DumpRecv);
    if s.notifications > 1 {
      Stops(s1);
      RunsOn(s, DumpRecv, []);
      events := [DumpRecv] + [];
    } else {
      var s2 := Step(s1, DumpLock);
      events := DumpTailFinishes(s2);
      RunsOn(s1, DumpLock, events);
      events := [DumpLock] + events;
      RunsOn(s, DumpRecv, events);
      events := [DumpRecv] + events;
    }
  }

  lemma {:induction false} RunsInTwo(s: State, first: seq<Event>, second: seq<Event>)
    ensures Run(s, first + second) == Run(Run(s, first), second)
    decreases |first|
  {
    hide Step, Enabled;
    if first == [] {
      assert first + second == second;
    } else {
      assert (first + second)[1..] == first[1..] + second;
      RunsInTwo(if Enabled(s, first[0]) then Step(s, first[0]) else s, first[1..], second);
    }
  }

  lemma {:induction false} DrainIsARun(s: State) returns (events: seq<Event>)
    requires s.pushing.Drain?
    ensures Run(s, events) == DrainAll(s)
    decreases |s.queue|
  {
    events := [];
    if s.queue != [] {
      var more := DrainIsARun(Taken(s));
      RunsOn(s, DrainOne, more);
      events := [DrainOne] + more;
    }
  }

  lemma {:induction false} DrainAnyway(s: State)
    ensures DrainAll(s.(pushing := Drain)) == DrainAll(s).(pushing := Drain)
    decreases |s.queue|
  {
    if s.queue != [] {
      DrainAnyway(Taken(s));
      assert Taken(s.(pushing := Drain)) == Taken(s).(pushing := Drain);
    }
  }

  lemma PushTailFinishes(s: State) returns (events: seq<Event>)
    ensures Run(s, events) == Finish(s, s.pushTail).(pushTail := DONE)
  {
    events := [];
    if s.pushTail != DONE {
      var s1 := Step(s, PushTail);
      Stops(s1);
      RunsOn(s, PushTail, []);
      events := [PushTail] + [];
      if s1.pushTail != DONE {
        Stops(Step(s1, PushTail));
        RunsOn(s1, PushTail, []);
        RunsOn(s, PushTail, events);
        events := [PushTail] + events;
      }
    }
  }

  /** Where the loop stands plays no part in what a call of its own does. */
  lemma CallMovesOn(s: State, c: Config, t: Tail, p: Pushing)
    requires s.pushTail == DONE
    ensures Finish(Locked(s, c).(pushing := p, pushTail := t), t).(pushTail := DONE)
            == Finish(Locked(s, c), t).(pushing := p)
  {
  }

  lemma ConfirmMovesOn(s: State, c: Config, t: Tail, pushed: set<nat>, p: Pushing)
    requires s.pushTail == DONE
    ensures var l := Locked(s, c);
            Finish(l.(settled := l.settled + pushed, pushing := p, pushTail := t), t).(pushTail := DONE)
            == var r := Finish(l, t); r.(settled := r.settled + pushed, pushing := p)
  {
  }

  /** `t`, with the callers of a failed push of `s` among the refused. */
  function Refused(s: State, fails: bool, t: State): State {
    if s.config.NeedsPush() && fails then t.(refused := t.refused + set id | id in s.callbacks) else t
  }

  lemma PushLockIsARun(s: State, fails: bool) returns (events: seq<Event>)
    requires s.pushing.Drain? && s.pushTail == DONE
    ensures var pushes := s.config.NeedsPush() && !fails;
            var c := if pushes then s.config.Push() else s.config;
            Run(s, events) == Refused(s, fails, Finish(Locked(s, c), AfterMutate(c, true, None))
                              .(pushing := if pushes then Confirm(c.status.rev, c.content)
                                           else Reply(!s.config.NeedsPush())))
  {
    var s1 := Step(s, PushLock(fails));
    events := PushTailFinishes(s1);
    RunsOn(s, PushLock(fails), events);
    events := [PushLock(fails)] + events;
    var c := if s.config.NeedsPush() && !fails then s.config.Push() else s.config;
    CallMovesOn(s, c, s1.pushTail, s1.pushing);
  }

  lemma ConfirmIsARun(s: State) returns (events: seq<Event>)
    requires s.pushing.Confirm? && s.pushTail == DONE
    ensures var c := s.config.ConfirmPushed(s.pushing.rev);
            Run(s, events) == var r := Finish(Locked(s, c), AfterMutate(c, false, None));
                              r.(settled := r.settled + s.pushing.pushed, pushing := Reply(true))
  {
    var s1 := Step(s, ConfirmLock);
    events := PushTailFinishes(s1);
    RunsOn(s, ConfirmLock, events);
    events := [ConfirmLock] + events;
    ConfirmMovesOn(s, s.config.ConfirmPushed(s.pushing.rev), s1.pushTail, s.pushing.pushed, s1.pushing);
  }

  lemma PushIsARun(s: State, fails: bool) returns (events: seq<Event>)
    requires s.pushing.Drain? && s.pushTail == DONE
    ensures Run(s, events) == Refused(s, fails, PushAndConfirm(s, fails)
                              .(pushing := Reply(!(s.config.NeedsPush() && fails))))
  {
    hide Run;
    events := PushLockIsARun(s, fails);
    var s1 := Run(s, events);
    if s1.pushing.Confirm? {
      var more := ConfirmIsARun(s1);
      RunsInTwo(s, events, more);
      events := events + more;
    }
  }

  lemma ReceivingIsARun(s: State) returns (events: seq<Event>)
    requires s.pushing.Receive? && s.queue != []
    ensures Run(s, events) == DrainAll(s).(pushing := Drain)
  {
    var s1 := Step(s, Recv);
    events := DrainIsARun(s1);
    DrainAnyway(Taken(s));
    RunsOn(s, Recv, events);
    events := [Recv] + events;
  }

  lemma AnsweringEndsRound(s: State, fails: bool)
    requires s.pushing.Receive? && s.pushTail == DONE && s.queue != []
    ensures var d := DrainAll(s).(pushing := Drain);
            var t := Refused(d, fails, PushAndConfirm(d, fails).(pushing := Reply(!(d.config.NeedsPush() && fails))));
            Enabled(t, Answering) && Step(t, Answering) == PushRound(s, fails)
  {
    hide PushAndConfirm, DrainAll;
    var d := DrainAll(s);
    assert d == s.(queue := [], callbacks := d.callbacks);
    PushAnywhere(d, Drain, fails);
    KeepsTheRest(d, fails);
  }

  /** What `PushConfigIfNeeded` does is one such run. */
  lemma RoundIsARun(s: State, fails: bool) returns (events: seq<Event>)
    requires s.pushing.Receive? && s.pushTail == DONE && s.queue != []
    ensures Run(s, events) == PushRound(s, fails)
  {
    hide Run, PushAndConfirm, PushRound, Step, Enabled, Refused;
    var drain := ReceivingIsARun(s);
    var d := DrainAll(s).(pushing := Drain);
    var push := PushIsARun(d, fails);
    var t := Run(d, push);
    AnsweringEndsRound(s, fails);
    Stops(Step(t, Answering));
    RunsOn(t, Answering, []);
    RunsInTwo(d, push, [Answering] + []);
    RunsInTwo(s, drain, push + ([Answering] + []));
    events := drain + (push + ([Answering] + []));
  }

  lemma KeepsTheRest(s: State, fails: bool)
    ensures var t := PushAndConfirm(s, fails);
            t.callbacks == s.callbacks && t.refused == s.refused && t.pushing == s.pushing && t.pushTail == s.pushTail
  {
    hide Finish, Locked;
    if !s.config.NeedsPush() || fails {
      CallKeepsTheRest(s, s.config, AfterMutate(s.config, true, None));
    } else {
      var pushed := s.config.Push();
      var t := AfterMutate(pushed, true, None);
      CallKeepsTheRest(s, pushed, t);
      var confirmed := pushed.ConfirmPushed(pushed.status.rev);
      CallKeepsTheRest(Finish(Locked(s, pushed), t), confirmed, AfterMutate(confirmed, false, None));
    }
  }

  lemma CallKeepsTheRest(s: State, c: Config, tail: Tail)
    ensures var t := Finish(Locked(s, c), tail);
            t.callbacks == s.callbacks && t.refused == s.refused && t.pushing == s.pushing && t.pushTail == s.pushTail
  {
  }

  lemma CallAnywhere(s: State, p: Pushing, c: Config, t: Tail)
    ensures Finish(Locked(s.(pushing := p), c), t) == Finish(Locked(s, c), t).(pushing := p)
  {
  }

  lemma PushAnywhere(s: State, p: Pushing, fails: bool)
    ensures PushAndConfirm(s.(pushing := p), fails) == PushAndConfirm(s, fails).(pushing := p)
  {
    hide Finish, Locked;
    if !s.config.NeedsPush() || fails {
      CallAnywhere(s, p, s.config, AfterMutate(s.config, true, None));
    } else {
      var pushed := s.config.Push();
      var t := AfterMutate(pushed, true, None);
      CallAnywhere(s, p, pushed, t);
      var confirmed := pushed.ConfirmPushed(pushed.status.rev);
      CallAnywhere(Finish(Locked(s, pushed), t), p, confirmed, AfterMutate(confirmed, false, None));
    }
  }

  // ---------- whole calls, field by field ----------

  /** The dump loop has subscribed and not ended. */
  predicate Subscribed(s: State) {
    s.dumping.Listen? || s.dumping.Received?
  }

  /** A mutation announces what has to be dumped, and asks for a push or answers its caller. */
  lemma MutationDoes(s: State, m: nat, changes: bool, cb: Option<nat>)
    ensures var c := s.config.Mutate(m, changes);
            var t := Finish(Locked(s, c), AfterMutate(c, true, cb));
            && t.config == c && c.content == s.config.content + {m}
            && (changes ==> c.NeedsPush() && c.needsDump)
            && (!changes ==> c.status == s.config.status && c.needsDump == s.config.needsDump)
            && t.notifications == s.notifications + One(Subscribed(s) && c.needsDump)
            && t.queue == s.queue + (if c.NeedsPush() then [cb] else [])
            && t.answers == if cb.Some? && !c.NeedsPush() then s.answers[cb.value := true] else s.answers
  {
  }

  /** A merge announces what it has accepted, and asks for a push if one is needed. */
  lemma MergeDoes(s: State, after: Config, accepted: bool)
    ensures var t := Finish(Locked(s, after), AfterMerge(after, accepted));
            && t.config == after && t.answers == s.answers
            && t.notifications == s.notifications + One(Subscribed(s) && accepted)
            && t.queue == s.queue + if after.NeedsPush() then [None] else []
  {
  }

  lemma {:induction false} DrainTakesAll(s: State, id: nat)
    ensures id in DrainAll(s).callbacks <==> id in s.callbacks || Some(id) in s.queue
    decreases |s.queue|
  {
    if s.queue != [] {
      assert s.queue == [s.queue[0]] + s.queue[1..];
      DrainTakesAll(Taken(s), id);
    }
  }

  /** A round of the push loop answers all callers in the queue, as its push went, and nobody else. */
  lemma RoundAnswersAll(s: State, fails: bool, id: nat)
    requires s.callbacks == []
    ensures var t := PushRound(s, fails);
            if Some(id) in s.queue then id in t.answers && t.answers[id] == (!s.config.NeedsPush() || !fails)
            else (id in t.answers <==> id in s.answers) && (id in s.answers ==> t.answers[id] == s.answers[id])
  {
    hide PushAndConfirm;
    DrainTakesAll(s, id);
    PushLeaves(DrainAll(s), fails);
  }

  /**
   A round whose push goes through leaves the config clean at its revision; one that had something to
   push also leaves a request for the next round, whether it went through or not.
   */
  lemma RoundLeaves(s: State, fails: bool)
    ensures var t := PushRound(s, fails);
            && t.queue == (if s.config.NeedsPush() then [None] else [])
            && t.config == if !s.config.NeedsPush() || fails then s.config
                           else Config(Clean(s.config.status.rev), true, s.config.content)
  {
    hide PushAndConfirm;
    PushLeaves(DrainAll(s), fails);
  }

  lemma PushLeaves(s: State, fails: bool)
    ensures var t := PushAndConfirm(s, fails);
            && t.answers == s.answers && t.callbacks == s.callbacks
            && t.queue == s.queue + (if s.config.NeedsPush() then [None] else [])
            && t.config == if !s.config.NeedsPush() || fails then s.config
                           else Config(Clean(s.config.status.rev), true, s.config.content)
  {
  }

  /** A turn of the dump loop dumps the config, and asks for a push if one is needed; or ends the loop. */
  lemma DumpTurnDoes(s: State)
    requires Enabled(s, DumpRecv)
    ensures var t := DumpTurn(s);
            && t.notifications == 0 && t.answers == s.answers && t.config.status == s.config.status
            && t.config.content == s.config.content
            && (s.notifications > 1 ==> t.dumping.Exited? && t.config == s.config && t.queue == s.queue)
            && (s.notifications == 1 ==>
                  t.dumping.Listen? && !t.config.needsDump
                  && t.queue == s.queue + if s.config.NeedsPush() then [None] else [])
  {
  }

  /** How often the events notify. */
  function Announcements(s: State, events: seq<Event>): nat
    decreases |events|
  {
    if events == [] then 0
    else if !Enabled(s, events[0]) then Announcements(s, events[1..])
    else
      var announces := match events[0]
        case Outside(i) => s.outside[i].notify
        case PushTail => s.pushTail.notify
        case DumpTail => s.dumpTail.notify
        case _ => false;
      One(announces) + Announcements(Step(s, events[0]), events[1..])
  }

  /** A dump loop that has subscribed misses no notification: as long as it does not receive, all are kept for it. */
  lemma {:induction false} NotificationsAreKept(s: State, events: seq<Event>)
    requires Subscribed(s) && forall i :: 0 <= i < |events| ==> !events[i].DumpRecv?
    ensures Run(s, events).notifications == s.notifications + Announcements(s, events)
    decreases |events|
  {
    if events != [] {
      var rest := events[1..];
      if Enabled(s, events[0]) {
        KeptByStep(s, events[0]);
        hide Step, Enabled;
        NotificationsAreKept(Step(s, events[0]), rest);
      } else {
        hide Step, Enabled;
        NotificationsAreKept(s, rest);
      }
    }
  }

  lemma KeptByStep(s: State, e: Event)
    requires Subscribed(s) && Enabled(s, e) && !e.DumpRecv?
    ensures Subscribed(Step(s, e))
    ensures Step(s, e).notifications == s.notifications + Announcements(s, [e])
  {
  }
}
