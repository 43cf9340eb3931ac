/**
 One worker for each group of a config (worker/sync_generic_groups.rs): the loop that starts and
 stops workers as the config changes, and passes commands on to them.
 */
module GenericGroups {
  import opened Wrappers

  type Id = nat
  type Group = nat
  type Command = nat

  /** What the config lists, before `filter_map_groups` has picked from it. */
  type Raw = nat
  type Filter = Raw -> Option<(Id, Group)>

  type Groups = map<Id, Group>

  /** `running` until the worker's own task has ended; its handle stays. */
  datatype Worker = Worker(group: Group, running: bool)

  type Handles = map<Id, Worker>

  /** A later entry of the same id takes the place of an earlier one. */
  function Accepted(config: seq<Raw>, filter: Filter): Groups {
    if config == [] then map[]
    else
      var earlier := Accepted(config[..|config| - 1], filter);
      match filter(config[|config| - 1])
      case Some((id, group)) => earlier[id := group]
      case None => earlier
  }

  /** Without the workers of other groups, with a new one for each group that has none. */
  function Reconciled(handles: Handles, groups: Groups): (r: Handles)
    ensures r.Keys == groups.Keys
    ensures forall id :: id in handles && id in r ==> r[id] == handles[id]
  {
    map id | id in groups :: if id in handles then handles[id] else Worker(groups[id], true)
  }

  /** The scan passes a config on only if its groups are not those of the config passed on last. */
  predicate PassedOn(last: Option<Groups>, groups: Groups) {
    last.None? || last.value.Keys != groups.Keys
  }

  class GroupSync {
    var handles: Handles
    var lastGroups: Option<Groups>
    const filter: Filter

    constructor (filter: Filter)
      ensures this.filter == filter && handles == map[] && lastGroups == None
    {
      this.filter := filter;
      handles, lastGroups := map[], None;
    }

    /** One item of the stream of configs. */
    method Observe(config: seq<Raw>)
      modifies this
      ensures var groups := Accepted(config, filter);
              if PassedOn(old(lastGroups), groups) then
                handles == Reconciled(old(handles), groups) && lastGroups == Some(groups)
              else handles == old(handles) && lastGroups == old(lastGroups)
    {
      var groups := Collect(config);
      if lastGroups.Some? && lastGroups.value.Keys == groups.Keys {
        return;
      }
      lastGroups := Some(groups);
      Retain(groups);
      StartNew(groups);
    }

    method Collect(config: seq<Raw>) returns (groups: Groups)
      ensures groups == Accepted(config, filter)
    {
      groups := map[];
      for i := 0 to |config|
        invariant groups == Accepted(config[..i], filter)
      {
        assert config[..i + 1][..i] == config[..i];
        match filter(config[i]) {
          case Some((id, group)) => groups := groups[id := group];
          case None =>
        }
      }
      assert config[..|config|] == config;
    }

    /** Dropping a handle aborts its worker. */
    method Retain(groups: Groups)
      modifies this`handles
      ensures handles == map id | id in old(handles) && id in groups :: old(handles)[id]
    {
      var ids := handles.Keys;
      while ids != {}
        invariant ids <= handles.Keys <= old(handles).Keys
        invariant forall id :: id in handles ==> handles[id] == old(handles)[id]
        invariant forall id :: id in handles && id !in ids ==> id in groups
        invariant forall id :: id in old(handles) && id in groups ==> id in handles
      {
        var id :| id in ids;
        ids := ids - {id};
        if id !in groups {
          handles := handles - {id};
        }
      }
    }

    method StartNew(groups: Groups)
      requires handles.Keys <= groups.Keys
      modifies this`handles
      ensures handles == Reconciled(old(handles), groups)
    {
      var newIds := groups.Keys - handles.Keys;
      while newIds != {}
        invariant newIds <= groups.Keys && newIds !! handles.Keys
        invariant groups.Keys == newIds + handles.Keys
        invariant forall id :: id in handles ==>
                    handles[id] == if id in old(handles) then old(handles)[id] else Worker(groups[id], true)
        invariant old(handles).Keys <= handles.Keys
      {
        var id :| id in newIds;
        newIds := newIds - {id};
        handles := handles[id := Worker(groups[id], true)];
      }
    }

    /** The worker that takes the command, if there is one. */
    method Send(id: Id, command: Command) returns (taken: bool)
      ensures taken == (id in handles && handles[id].running)
    {
      if id !in handles {
        return false;
      }
      taken := handles[id].running;
    }
  }

  // ---------- runs ----------

  datatype Mark = Started(group: Group) | Got(command: Command) | Ended | Stopped

  datatype State = State(
    config: seq<Raw>,
    handles: Handles,
    lastGroups: Option<Groups>,
    // history
    observed: Option<seq<Raw>>,
    log: Id -> seq<Mark>)  // what happened to the workers of an id

  datatype Event =
    | Edit(config: seq<Raw>)
    | Observe  // on start, and after each change notification, missed ones included
    | Order(id: Id, command: Command)
    | WorkerEnds(id: Id)

  predicate Enabled(s: State, e: Event) {
    e.WorkerEnds? ==> e.id in s.handles && s.handles[e.id].running
  }

  /** What an observation does to the workers of `id`. */
  function Marks(before: Handles, after: Handles, id: Id): seq<Mark> {
    if id in before && id !in after then [Stopped]
    else if id !in before && id in after then [Started(after[id].group)]
    else []
  }

  function Step(s: State, e: Event, filter: Filter): State
    requires Enabled(s, e)
  {
    match e
    case Edit(config) => s.(config := config)
    case Observe =>
      var groups := Accepted(s.config, filter);
      var t := s.(observed := Some(s.config));
      if PassedOn(s.lastGroups, groups) then
        var handles := Reconciled(s.handles, groups);
        t.(handles := handles, lastGroups := Some(groups),
           log := (id: Id) => s.log(id) + Marks(s.handles, handles, id))
      else t
    case Order(id, command) =>
      if id in s.handles && s.handles[id].running then
        s.(log := (i: Id) => if i == id then s.log(i) + [Got(command)] else s.log(i))
      else s
    case WorkerEnds(id) =>
      s.(handles := s.handles[id := s.handles[id].(running := false)],
         log := (i: Id) => if i == id then s.log(i) + [Ended] else s.log(i))
  }

  function Run(s: State, events: seq<Event>, filter: Filter): State
    decreases |events|
  {
    if events == [] then s
    else if Enabled(s, events[0]) then Run(Step(s, events[0], filter), events[1..], filter)
    else Run(s, events[1..], filter)
  }

  function Initial(config: seq<Raw>): State {
    State(config, map[], None, None, (id: Id) => [])
  }

  // ---------- what every run keeps ----------

  /** Does the log leave a worker in place? */
  predicate Open(log: seq<Mark>) {
    log != [] && !log[|log| - 1].Stopped?
  }

  /** Is the worker the log leaves in place still running? */
  predicate Alive(log: seq<Mark>) {
    log != [] && (log[|log| - 1].Started? || log[|log| - 1].Got?)
  }

  /** Starts and stops take turns, and only a worker that is running is given commands, or ends. */
  predicate Alternates(log: seq<Mark>) {
    log == []
    || var before := log[..|log| - 1];
       Alternates(before)
       && match log[|log| - 1]
          case Started(_) => !Open(before)
          case Stopped => Open(before)
          case _ => Alive(before)
  }

  /** The group the worker in place was started with. */
  function StartedWith(log: seq<Mark>): Option<Group> {
    if log == [] then None
    else match log[|log| - 1]
      case Started(group) => Some(group)
      case Stopped => None
      case _ => StartedWith(log[..|log| - 1])
  }

  ghost predicate LogsGood(s: State) {
    forall id :: LogGood(s.log(id), s.handles, id)
  }

  ghost predicate LogGood(log: seq<Mark>, handles: Handles, id: Id) {
    && Alternates(log) && (Open(log) <==> id in handles)
    && (id in handles ==> StartedWith(log) == Some(handles[id].group) && (handles[id].running <==> Alive(log)))
  }

  /** The workers are those of the config observed last. */
  ghost predicate HandlesGood(s: State, filter: Filter) {
    if s.observed.None? then s.handles == map[] && s.lastGroups.None?
    else s.lastGroups.Some? && s.lastGroups.value.Keys == Accepted(s.observed.value, filter).Keys == s.handles.Keys
  }

  lemma AddMark(log: seq<Mark>, mark: Mark)
    requires Alternates(log)
    requires match mark
             case Started(_) => !Open(log)
             case Stopped => Open(log)
             case _ => Alive(log)
    ensures Alternates(log + [mark])
    ensures Open(log + [mark]) <==> !mark.Stopped?
    ensures Alive(log + [mark]) <==> mark.Started? || mark.Got?
    ensures StartedWith(log + [mark]) == match mark
              case Started(group) => Some(group)
              case Stopped => None
              case _ => StartedWith(log)
  {
    assert (log + [mark])[..|log|] == log;
  }

  lemma StepKeepsLogs(s: State, e: Event, filter: Filter)
    requires LogsGood(s) && Enabled(s, e)
    ensures LogsGood(Step(s, e, filter))
  {
    var t := Step(s, e, filter);
    forall id
      ensures LogGood(t.log(id), t.handles, id)
    {
      assert LogGood(s.log(id), s.handles, id);
      if t.log(id) != s.log(id) {
        var mark := t.log(id)[|t.log(id)| - 1];
        assert t.log(id) == s.log(id) + [mark];
        AddMark(s.log(id), mark);
      }
    }
  }

  lemma StepKeepsHandles(s: State, e: Event, filter: Filter)
    requires HandlesGood(s, filter) && Enabled(s, e)
    ensures HandlesGood(Step(s, e, filter), filter)
  {
  }

  lemma {:induction false} RunKeeps(s: State, events: seq<Event>, filter: Filter)
    requires LogsGood(s) && HandlesGood(s, filter)
    ensures LogsGood(Run(s, events, filter)) && HandlesGood(Run(s, events, filter), filter)
    decreases |events|
  {
    hide LogsGood, HandlesGood, Step, Enabled;
    if events != [] {
      if Enabled(s, events[0]) {
        StepKeepsLogs(s, events[0], filter);
        StepKeepsHandles(s, events[0], filter);
        RunKeeps(Step(s, events[0], filter), events[1..], filter);
      } else {
        RunKeeps(s, events[1..], filter);
      }
    }
  }

  /** The config lists the group with the id, and no later entry of the id takes its place. */
  ghost predicate Lists(config: seq<Raw>, filter: Filter, id: Id, group: Group) {
    exists i :: 0 <= i < |config| && filter(config[i]) == Some((id, group))
      && forall j :: i < j < |config| ==> filter(config[j]).None? || filter(config[j]).value.0 != id
  }

  /** Some entry of the config is accepted with the id. */
  ghost predicate Has(config: seq<Raw>, filter: Filter, id: Id) {
    exists i :: 0 <= i < |config| && filter(config[i]).Some? && filter(config[i]).value.0 == id
  }

  lemma {:induction false} AcceptedAreListed(config: seq<Raw>, filter: Filter, id: Id)
    ensures id in Accepted(config, filter) <==> Has(config, filter, id)
    ensures id in Accepted(config, filter) ==> Lists(config, filter, id, Accepted(config, filter)[id])
  {
    if config != [] {
      var n := |config| - 1;
      AcceptedAreListed(config[..n], filter, id);
      if filter(config[n]).Some? && filter(config[n]).value.0 == id {
        assert filter(config[n]) == Some((id, Accepted(config, filter)[id]));
      } else {
        assert forall i :: 0 <= i < n ==> config[..n][i] == config[i];
      }
    }
  }

  /**
   In every run: after a config has been observed there is a worker for an id exactly if the config
   has an entry that is accepted with that id, even when the scan did not pass it on.
   */
  lemma WorkersFollowConfig(config: seq<Raw>, events: seq<Event>, filter: Filter, id: Id)
    ensures var s := Run(Initial(config), events, filter);
            s.observed.Some? ==>
              (id in s.handles <==> Has(s.observed.value, filter, id))
  {
    RunKeeps(Initial(config), events, filter);
    var s := Run(Initial(config), events, filter);
    if s.observed.Some? {
      AcceptedAreListed(s.observed.value, filter, id);
    }
  }

  /**
   In every run, for every id: starts and stops alternate; a worker is in place exactly if the last
   start is not yet stopped, and running exactly if it has not ended since; only then it is given
   commands.
   */
  lemma LifecyclesAlternate(config: seq<Raw>, events: seq<Event>, filter: Filter, id: Id)
    ensures var s := Run(Initial(config), events, filter);
            LogGood(s.log(id), s.handles, id)
  {
    RunKeeps(Initial(config), events, filter);
  }

  /** In every reachable state a command reaches the worker of its id if it runs, and nobody else. */
  lemma CommandsReachTheirWorker(config: seq<Raw>, events: seq<Event>, filter: Filter, id: Id, command: Command,
                                 other: Id)
    ensures var s := Run(Initial(config), events, filter);
            var t := Step(s, Order(id, command), filter);
            && t.log(id) == (if Alive(s.log(id)) then s.log(id) + [Got(command)] else s.log(id))
            && (other != id ==> t.log(other) == s.log(other))
  {
    RunKeeps(Initial(config), events, filter);
    var s := Run(Initial(config), events, filter);
    assert LogGood(s.log(id), s.handles, id);
  }

  /**
   In every reachable state an observation starts a running worker for each group that is newly
   listed, with the group the config lists then.
   */
  lemma NewGroupsAreStarted(config: seq<Raw>, events: seq<Event>, filter: Filter, id: Id)
    requires var s := Run(Initial(config), events, filter);
             id !in s.handles && Has(s.config, filter, id)
    ensures var s := Run(Initial(config), events, filter);
            var t := Step(s, Observe, filter);
            exists group :: Lists(s.config, filter, id, group) && t.log(id) == s.log(id) + [Started(group)]
                            && id in t.handles && t.handles[id] == Worker(group, true)
  {
    RunKeeps(Initial(config), events, filter);
    var s := Run(Initial(config), events, filter);
    AcceptedAreListed(s.config, filter, id);
    var group := Accepted(s.config, filter)[id];
    assert Lists(s.config, filter, id, group);
    assert HandlesGood(s, filter);
  }

  // ---------- survival ----------

  /** Every config observed in the run accepts the group; what it was in between does not matter. */
  ghost predicate AlwaysSeen(s: State, events: seq<Event>, filter: Filter, id: Id)
    decreases |events|
  {
    events == []
    || if Enabled(s, events[0]) then
         (events[0].Observe? ==> Has(s.config, filter, id))
         && AlwaysSeen(Step(s, events[0], filter), events[1..], filter, id)
       else AlwaysSeen(s, events[1..], filter, id)
  }

  predicate Extends(log: seq<Mark>, longer: seq<Mark>) {
    |log| <= |longer| && forall k :: 0 <= k < |log| ==> longer[k] == log[k]
  }

  /** All that has happened since is commands, or that it ended: the same worker is in place. */
  predicate SameWorker(log: seq<Mark>, longer: seq<Mark>) {
    Extends(log, longer) && forall k :: |log| <= k < |longer| ==> longer[k].Got? || longer[k].Ended?
  }

  lemma {:induction false} LogGrows(s: State, events: seq<Event>, filter: Filter, id: Id)
    ensures Extends(s.log(id), Run(s, events, filter).log(id))
    decreases |events|
  {
    if events != [] {
      var t := if Enabled(s, events[0]) then Step(s, events[0], filter) else s;
      assert Extends(s.log(id), t.log(id));
      LogGrows(t, events[1..], filter, id);
    }
  }

  /** The step of a worker that stays: at most a command, or its end. */
  lemma SurvivorStep(s: State, e: Event, filter: Filter, id: Id)
    requires id in s.handles && Enabled(s, e) && (e.Observe? ==> id in Accepted(s.config, filter))
    ensures var t := Step(s, e, filter);
            id in t.handles && t.handles[id].group == s.handles[id].group && SameWorker(s.log(id), t.log(id))
            && (!s.handles[id].running ==> !t.handles[id].running && t.log(id) == s.log(id))
  {
  }

  /** Observing a config without the group stops its worker. */
  lemma LostStep(s: State, filter: Filter, id: Id)
    requires HandlesGood(s, filter) && id in s.handles && id !in Accepted(s.config, filter)
    ensures Step(s, Observe, filter).log(id) == s.log(id) + [Stopped]
  {
  }

  lemma SameWorkerStill(a: seq<Mark>, b: seq<Mark>, c: seq<Mark>)
    requires SameWorker(a, b) && Extends(b, c)
    ensures SameWorker(a, c) <==> SameWorker(b, c)
  {
    if SameWorker(b, c) {
      assert forall k :: |a| <= k < |b| ==> c[k] == b[k];
    }
  }

  lemma {:induction false} SurvivesFrom(s: State, events: seq<Event>, filter: Filter, id: Id)
    requires HandlesGood(s, filter) && id in s.handles
    ensures var t := Run(s, events, filter);
            && (SameWorker(s.log(id), t.log(id)) <==> AlwaysSeen(s, events, filter, id))
            && (AlwaysSeen(s, events, filter, id) ==> id in t.handles && t.handles[id].group == s.handles[id].group)
            && (AlwaysSeen(s, events, filter, id) && !s.handles[id].running ==>
                  !t.handles[id].running && t.log(id) == s.log(id))
    decreases |events|
  {
    hide HandlesGood, Step, Accepted, Has, Enabled, SameWorker, Extends;
    if events == [] {
      assert SameWorker(s.log(id), s.log(id)) by {
        SameWorkerNow(s.log(id));
      }
    } else if !Enabled(s, events[0]) {
      SurvivesFrom(s, events[1..], filter, id);
    } else {
      var t := Step(s, events[0], filter);
      LogGrows(t, events[1..], filter, id);
      AcceptedAreListed(s.config, filter, id);
      if events[0].Observe? && id !in Accepted(s.config, filter) {
        LostStep(s, filter, id);
        StoppedIsSeen(s.log(id), Run(t, events[1..], filter).log(id));
      } else {
        SurvivorStep(s, events[0], filter, id);
        StepKeepsHandles(s, events[0], filter);
        SurvivesFrom(t, events[1..], filter, id);
        SameWorkerStill(s.log(id), t.log(id), Run(t, events[1..], filter).log(id));
      }
    }
  }

  lemma SameWorkerNow(log: seq<Mark>)
    ensures SameWorker(log, log)
  {
  }

  lemma StoppedIsSeen(log: seq<Mark>, longer: seq<Mark>)
    requires Extends(log + [Stopped], longer)
    ensures !SameWorker(log, longer)
  {
    assert longer[|log|] == (log + [Stopped])[|log|];
  }

  /**
   From every reachable state: a worker stays in place, the one first started and with the group it
   was given then, exactly as long as every config that is observed accepts its group. A group that
   comes and goes between two observations is not noticed.
   */
  lemma SurvivesExactly(config: seq<Raw>, first: seq<Event>, events: seq<Event>, filter: Filter, id: Id)
    requires id in Run(Initial(config), first, filter).handles
    ensures var s := Run(Initial(config), first, filter);
            var t := Run(s, events, filter);
            && (SameWorker(s.log(id), t.log(id)) <==> AlwaysSeen(s, events, filter, id))
            && (AlwaysSeen(s, events, filter, id) ==> id in t.handles && t.handles[id].group == s.handles[id].group)
  {
    RunKeeps(Initial(config), first, filter);
    SurvivesFrom(Run(Initial(config), first, filter), events, filter, id);
  }

  /** A worker whose task has ended gets neither a successor nor commands as long as its group is seen. */
  lemma EndedWorkerStaysEnded(config: seq<Raw>, first: seq<Event>, events: seq<Event>, filter: Filter, id: Id)
    requires var s := Run(Initial(config), first, filter);
             id in s.handles && !s.handles[id].running && AlwaysSeen(s, events, filter, id)
    ensures var s := Run(Initial(config), first, filter);
            var t := Run(s, events, filter);
            id in t.handles && !t.handles[id].running && t.log(id) == s.log(id)
  {
    RunKeeps(Initial(config), first, filter);
    SurvivesFrom(Run(Initial(config), first, filter), events, filter, id);
  }
}
