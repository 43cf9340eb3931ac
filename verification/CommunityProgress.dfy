/**
 How far polling and loading earlier messages get in a room that nobody else writes to while they do
 (worker/community/download_community_messages.rs).
 */
module CommunityProgress {
  import opened Wrappers

  import opened CommunityStore
  import opened CommunitySync

  // ---------- catching up ----------

  /** A response shorter than the limit catches up with the room as it was when it was asked for. */
  lemma ShortResponseCatchesUp(s: State)
    requires Sound(s) && Promised(s) && !s.gap && !s.ahead
    requires s.asked.Some? && s.asked.value.kind.Since? && |s.asked.value.items| < LOAD_LIMIT
    ensures var t := Step(s, Response(true));
            NoGap(t.server, t.client.db.rows, t.room, t.client.sync.value.(latest := s.asked.value.upTo))
  {
    var Asked(kind, upTo, items) := s.asked.value;
    var t := Step(s, Response(true));
    ResponseKeepsPromises(s, true);
    forall id | id in s.server && id >= t.client.sync.value.earliest && s.server[id].seqno <= upTo
                && s.server[id].body.Content?
      ensures Key(s.room, id) in t.client.db.rows
    {
      NewRow(s.client.db.rows, s.room, items, id);
      if s.server[id].seqno > s.client.sync.value.latest {
        assert Reaches(kind, items, id, s.server[id]);
      }
    }
  }

  function Ids(items: seq<Item>): (ids: set<nat>)
    ensures forall id :: id in ids <==> exists x :: x in items && x.id == id
    ensures |ids| <= |items|
  {
    if items == [] then {}
    else
      var last := items[|items| - 1];
      assert items == items[..|items| - 1] + [last];
      Ids(items[..|items| - 1]) + {last.id}
  }

  lemma {:induction false} AllIdsCount(items: seq<Item>)
    requires DistinctIds(items)
    ensures |Ids(items)| == |items|
  {
    if items != [] {
      var front, last := items[..|items| - 1], items[|items| - 1];
      AllIdsCount(front);
      assert forall i :: 0 <= i < |front| ==> front[i] == items[i];
    }
  }

  /** A full response's worth of posts right behind the cursor, none of which decodes. */
  ghost predicate Wall(server: Room, after: nat, wall: set<nat>) {
    && |wall| >= 256
    && (forall u :: u in wall ==> u in server && server[u].seqno > after && !server[u].body.Content?)
    && forall u, id :: u in wall && id in server && id !in wall && server[id].seqno > after ==>
         server[u].seqno < server[id].seqno
  }

  ghost predicate Walled(server: Room, after: nat) {
    exists wall: set<nat> :: Wall(server, after, wall)
  }

  /** A response that reaches past the wall holds all of it, and more. */
  lemma PastTheWall(server: Room, top: nat, after: nat, wall: set<nat>, from: nat, items: seq<Item>, x: Item)
    requires Clocked(server, top) && Wall(server, after, wall) && from <= after
    requires Genuine(server, top, items) && Complete(server, top, Since(from), items)
    requires x in items && x.body.Content? && x.seqno > after
    ensures |items| > LOAD_LIMIT
  {
    assert server[x.id] == Post(x.seqno, x.body);
    forall u | u in wall
      ensures u in Ids(items)
    {
      assert Reaches(Since(from), items, u, server[u]);
    }
    assert wall + {x.id} <= Ids(items);
    SubsetSize(wall + {x.id}, Ids(items));
  }

  /** From a cursor at or before it, no poll sees a message behind such a wall. */
  lemma WallHidesTheRest(server: Room, top: nat, after: nat, wall: set<nat>, from: nat, items: seq<Item>)
    requires Clocked(server, top) && Wall(server, after, wall) && Answers(server, top, Since(from), items)
    requires from <= after
    ensures forall x :: x in items && x.body.Content? ==> x.seqno <= after
  {
    if x :| x in items && x.body.Content? && x.seqno > after {
      PastTheWall(server, top, after, wall, from, items, x);
    }
  }

  lemma {:induction false} SubsetSize(a: set<nat>, b: set<nat>)
    requires a <= b
    ensures |a| <= |b|
  {
    if a != {} {
      var x :| x in a;
      SubsetSize(a - {x}, b - {x});
    }
  }

  lemma ShortShowsAll(server: Room, top: nat, after: nat, items: seq<Item>, waiting: nat)
    requires Clocked(server, top) && Complete(server, top, Since(after), items) && |items| < LOAD_LIMIT
    requires waiting in server && server[waiting].seqno > after && server[waiting].body.Content?
    ensures ToSave(items) != []
  {
    assert Reaches(Since(after), items, waiting, server[waiting]);
    assert Item(waiting, server[waiting].seqno, server[waiting].body) in ToSave(items);
  }

  lemma LowerIsShown(server: Room, top: nat, after: nat, items: seq<Item>, x: Item, id: nat)
    requires Clocked(server, top) && Complete(server, top, Since(after), items)
    requires x in items && id in server && server[id].seqno > after
    ensures server[id].seqno <= x.seqno ==> id in Ids(items)
  {
    if server[id].seqno <= x.seqno {
      assert Reaches(Since(after), items, id, server[id]);
    }
  }

  /** A poll that comes back without a message although one is waiting has met a wall: the response itself. */
  lemma HiddenByWall(server: Room, top: nat, after: nat, items: seq<Item>, waiting: nat)
    requires Clocked(server, top) && Answers(server, top, Since(after), items) && ToSave(items) == []
    requires waiting in server && server[waiting].seqno > after && server[waiting].body.Content?
    ensures Wall(server, after, Ids(items))
  {
    AllIdsCount(items);
    if |items| < LOAD_LIMIT {
      ShortShowsAll(server, top, after, items, waiting);
    }
    forall u | u in Ids(items)
      ensures u in server && server[u].seqno > after && !server[u].body.Content?
    {
      var x :| x in items && x.id == u;
      assert server[u] == Post(x.seqno, x.body);
    }
    forall u, id | u in Ids(items) && id in server && id !in Ids(items) && server[id].seqno > after
      ensures server[u].seqno < server[id].seqno
    {
      var x :| x in items && x.id == u;
      assert server[u] == Post(x.seqno, x.body);
      LowerIsShown(server, top, after, items, x, id);
    }
  }

  /** While a message waits behind the cursor, a poll comes back without one exactly when a wall lies before it. */
  lemma HiddenExactly(server: Room, top: nat, after: nat, items: seq<Item>, waiting: nat)
    requires Clocked(server, top) && Answers(server, top, Since(after), items)
    requires waiting in server && server[waiting].seqno > after && server[waiting].body.Content?
    ensures ToSave(items) == [] <==> Walled(server, after)
  {
    HeadIsSaved(items);
    if ToSave(items) == [] {
      HiddenByWall(server, top, after, items, waiting);
    }
    if wall: set<nat> :| Wall(server, after, wall) {
      WallHidesTheRest(server, top, after, wall, after, items);
    }
  }

  /** A message that decodes lies behind the cursor. */
  ghost predicate Waiting(server: Room, after: nat) {
    exists id :: id in server && server[id].seqno > after && server[id].body.Content?
  }

  /**
   So a poll made and handled while nobody writes moves the forward cursor exactly when a message
   that decodes waits behind it and no wall lies before it.
   */
  lemma PollMovesExactly(server: Room, top: nat, sync: SyncState, items: seq<Item>)
    requires Clocked(server, top) && Answers(server, top, Since(sync.latest), items)
    ensures NewCursors(Some(sync), Since(sync.latest), items).latest > sync.latest <==>
            Waiting(server, sync.latest) && !Walled(server, sync.latest)
  {
    var saves := ToSave(items);
    if saves != [] {
      var last := MaxSeqIsGreatest(saves);
      assert server[last.id] == Post(last.seqno, last.body);
    }
    if id :| id in server && server[id].seqno > sync.latest && server[id].body.Content? {
      HiddenExactly(server, top, sync.latest, items, id);
    }
  }

  /** The cursors of the worker, stored and in memory, are at or before the wall, and so is all that was asked for. */
  ghost predicate Blocked(s: State, after: nat, wall: set<nat>) {
    && Clocked(s.server, s.top) && Wall(s.server, after, wall)
    && s.client.sync.Some? && s.client.sync.value.latest <= after
    && Cursors(Stored(s.client.db, s.room)).latest <= after
    && (s.asked.Some? ==> !s.asked.value.kind.Recent?)
    && (s.asked.Some? && s.asked.value.kind.Since? ==>
          forall x :: x in s.asked.value.items && x.body.Content? ==> x.seqno <= after)
  }

  lemma BlockedResponse(s: State, after: nat, wall: set<nat>, commits: bool)
    requires Blocked(s, after, wall) && Enabled(s, Response(commits))
    ensures Blocked(Step(s, Response(commits)), after, wall)
  {
    var Asked(kind, _, items) := s.asked.value;
    if ToSave(items) != [] {
      var last := MaxSeqIsGreatest(ToSave(items));
    }
  }

  lemma BlockedStep(s: State, after: nat, wall: set<nat>, e: Event)
    requires Blocked(s, after, wall) && Enabled(s, e) && !e.Write?
    requires e.Restart? ==> Stored(s.client.db, s.room).Some?
    ensures Blocked(Step(s, e), after, wall)
  {
    match e
    case Ask(kind, items) =>
      if kind.Since? {
        WallHidesTheRest(s.server, s.top, after, wall, kind.after, items);
      }
    case Response(commits) => BlockedResponse(s, after, wall, commits);
    case Restart =>
    case Elsewhere(_, _) =>
  }

  /**
   As long as nobody writes, no run gets past a wall: not by polls, not by loads of earlier messages,
   not by a restart, unless the worker restarts before it has ever stored its cursors.
   */
  lemma {:induction false} WallStopsPolling(s: State, after: nat, wall: set<nat>, events: seq<Event>)
    requires Blocked(s, after, wall)
    requires forall i :: 0 <= i < |events| ==> !events[i].Write?
    requires Stored(s.client.db, s.room).Some? || forall i :: 0 <= i < |events| ==> !events[i].Restart?
    ensures Blocked(Run(s, events), after, wall)
    ensures Run(s, events).client.sync.Some? && Run(s, events).client.sync.value.latest <= after
    decreases |events|
  {
    hide Wall, Clocked;
    if events != [] {
      if Enabled(s, events[0]) {
        BlockedStep(s, after, wall, events[0]);
        WallStopsPolling(Step(s, events[0]), after, wall, events[1..]);
      } else {
        WallStopsPolling(s, after, wall, events[1..]);
      }
    }
  }

  /** Answers to polls of a room that nobody writes to, one for each cursor. */
  ghost predicate HonestPolls(server: Room, top: nat, answer: nat -> seq<Item>) {
    forall after: nat :: Answers(server, top, Since(after), answer(after))
  }

  /** The cursors after `n` polls. */
  function Polled(sync: SyncState, answer: nat -> seq<Item>, n: nat): SyncState
    decreases n
  {
    if n == 0 then sync
    else Polled(NewCursors(Some(sync), Since(sync.latest), answer(sync.latest)), answer, n - 1)
  }

  /** Polling ends where nothing waits, or at a wall. */
  lemma {:induction false} PollingEnds(server: Room, top: nat, sync: SyncState, answer: nat -> seq<Item>, n: nat)
    requires Clocked(server, top) && HonestPolls(server, top, answer)
    requires sync.latest <= top && n >= top - sync.latest
    ensures var t := Polled(sync, answer, n);
            sync.latest <= t.latest && (Waiting(server, t.latest) ==> Walled(server, t.latest))
    decreases n
  {
    var items := answer(sync.latest);
    assert Answers(server, top, Since(sync.latest), items);
    var next := NewCursors(Some(sync), Since(sync.latest), items);
    if n > 0 {
      hide Walled, Waiting;
      PollMovesExactly(server, top, sync, items);
      NewLatest(server, top, Some(sync), Since(sync.latest), items);
      if next.latest > sync.latest {
        PollingEnds(server, top, next, answer, n - 1);
      } else {
        StaysPut(sync, answer, items);
        Stuck(sync, answer, n);
      }
    }
  }

  lemma StaysPut(sync: SyncState, answer: nat -> seq<Item>, items: seq<Item>)
    requires items == answer(sync.latest) && InRange(Since(sync.latest), items)
    requires NewCursors(Some(sync), Since(sync.latest), items).latest <= sync.latest
    ensures NewCursors(Some(sync), Since(sync.latest), items) == sync
  {
    if ToSave(items) != [] {
      var last := MaxSeqIsGreatest(ToSave(items));
    }
  }

  lemma {:induction false} Stuck(sync: SyncState, answer: nat -> seq<Item>, n: nat)
    requires NewCursors(Some(sync), Since(sync.latest), answer(sync.latest)) == sync
    ensures Polled(sync, answer, n) == sync
    decreases n
  {
    if n > 0 {
      Stuck(sync, answer, n - 1);
    }
  }

  /** Polls that start at or before a wall stay there. */
  lemma {:induction false} PollsStayBehind(server: Room, top: nat, sync: SyncState, answer: nat -> seq<Item>, n: nat,
                                           after: nat, wall: set<nat>)
    requires Clocked(server, top) && HonestPolls(server, top, answer)
    requires Wall(server, after, wall) && sync.latest <= after
    ensures Polled(sync, answer, n).latest <= after
    decreases n
  {
    hide Wall, Clocked, Answers;
    if n > 0 {
      var items := answer(sync.latest);
      assert Answers(server, top, Since(sync.latest), items);
      WallHidesTheRest(server, top, after, wall, sync.latest, items);
      if ToSave(items) != [] {
        var last := MaxSeqIsGreatest(ToSave(items));
      }
      PollsStayBehind(server, top, NewCursors(Some(sync), Since(sync.latest), items), answer, n - 1, after, wall);
    }
  }

  /** No wall at or behind the cursor has a message waiting behind it. */
  ghost predicate NothingWalledIn(server: Room, from: nat) {
    forall after: nat :: after >= from && Walled(server, after) ==> !Waiting(server, after)
  }

  /**
   Polling a room that nobody writes to, often enough, catches up with everything that decodes exactly
   if no wall hides a message.
   */
  lemma PollingCatchesUpExactly(server: Room, top: nat, sync: SyncState, answer: nat -> seq<Item>, n: nat)
    requires Clocked(server, top) && HonestPolls(server, top, answer)
    requires sync.latest <= top && n >= top - sync.latest
    ensures !Waiting(server, Polled(sync, answer, n).latest) <==> NothingWalledIn(server, sync.latest)
  {
    var t := Polled(sync, answer, n);
    PollingEnds(server, top, sync, answer, n);
    if after: nat :| after >= sync.latest && Walled(server, after) && Waiting(server, after) {
      var wall: set<nat> :| Wall(server, after, wall);
      PollsStayBehind(server, top, sync, answer, n, after, wall);
      assert Waiting(server, t.latest);
    }
  }

  // ---------- loading earlier messages ----------

  /** `before` leaves deleted messages out. */
  predicate NoneDeleted(items: seq<Item>) {
    forall x :: x in items ==> x.body != Gone
  }

  /** An answer to a load of earlier messages, handled while nobody writes. */
  ghost predicate AnswersBefore(server: Room, top: nat, bound: nat, items: seq<Item>) {
    Answers(server, top, Before(bound), items) && NoneDeleted(items)
  }

  /** A message that decodes lies before the backward cursor. */
  ghost predicate Earlier(server: Room, bound: nat) {
    exists id :: id in server && id < bound && server[id].body.Content?
  }

  /** A full response's worth of posts right before the cursor, none of which decodes. */
  ghost predicate Dam(server: Room, bound: nat, dam: set<nat>) {
    && |dam| >= 256
    && (forall u :: u in dam ==> u in server && u < bound && server[u].body.Garbage?)
    && forall u, id :: u in dam && id in server && id !in dam && id < bound && server[id].body != Gone ==> id < u
  }

  ghost predicate Dammed(server: Room, bound: nat) {
    exists dam: set<nat> :: Dam(server, bound, dam)
  }

  lemma PastTheDam(server: Room, top: nat, bound: nat, dam: set<nat>, from: nat, items: seq<Item>, x: Item)
    requires Clocked(server, top) && Dam(server, bound, dam) && bound <= from
    requires Genuine(server, top, items) && Complete(server, top, Before(from), items)
    requires x in items && x.body.Content? && x.id < bound
    ensures |items| > LOAD_LIMIT
  {
    assert server[x.id] == Post(x.seqno, x.body);
    forall u | u in dam
      ensures u in Ids(items)
    {
      assert Reaches(Before(from), items, u, server[u]);
    }
    assert dam + {x.id} <= Ids(items);
    SubsetSize(dam + {x.id}, Ids(items));
  }

  /** From a cursor at or behind it, no load of earlier messages sees one from before such a dam. */
  lemma DamHidesTheRest(server: Room, top: nat, bound: nat, dam: set<nat>, from: nat, items: seq<Item>)
    requires Clocked(server, top) && Dam(server, bound, dam) && AnswersBefore(server, top, from, items)
    requires bound <= from
    ensures forall x :: x in items && x.body.Content? ==> x.id >= bound
  {
    if x :| x in items && x.body.Content? && x.id < bound {
      PastTheDam(server, top, bound, dam, from, items, x);
    }
  }

  lemma ShortShowsEarlier(server: Room, top: nat, bound: nat, items: seq<Item>, earlier: nat)
    requires Clocked(server, top) && Complete(server, top, Before(bound), items) && |items| < LOAD_LIMIT
    requires earlier in server && earlier < bound && server[earlier].body.Content?
    ensures ToSave(items) != []
  {
    assert Reaches(Before(bound), items, earlier, server[earlier]);
    assert Item(earlier, server[earlier].seqno, server[earlier].body) in ToSave(items);
  }

  lemma HigherIsShown(server: Room, top: nat, bound: nat, items: seq<Item>, x: Item, id: nat)
    requires Clocked(server, top) && Complete(server, top, Before(bound), items)
    requires x in items && id in server && id < bound && server[id].body != Gone
    ensures x.id <= id ==> id in Ids(items)
  {
    if x.id <= id {
      assert Reaches(Before(bound), items, id, server[id]);
    }
  }

  /** A load that brings nothing although there is an earlier message has met a dam: the response itself. */
  lemma HiddenByDam(server: Room, top: nat, bound: nat, items: seq<Item>, earlier: nat)
    requires Clocked(server, top) && AnswersBefore(server, top, bound, items) && ToSave(items) == []
    requires earlier in server && earlier < bound && server[earlier].body.Content?
    ensures Dam(server, bound, Ids(items))
  {
    AllIdsCount(items);
    if |items| < LOAD_LIMIT {
      ShortShowsEarlier(server, top, bound, items, earlier);
    }
    forall u | u in Ids(items)
      ensures u in server && u < bound && server[u].body.Garbage?
    {
      var x :| x in items && x.id == u;
      assert server[u] == Post(x.seqno, x.body) && x !in ToSave(items);
    }
    forall u, id | u in Ids(items) && id in server && id !in Ids(items) && id < bound && server[id].body != Gone
      ensures id < u
    {
      var x :| x in items && x.id == u;
      HigherIsShown(server, top, bound, items, x, id);
    }
  }

  /**
   A load of earlier messages from a room that nobody writes to moves the backward cursor exactly when
   there is an earlier message and no dam lies before the cursor.
   */
  lemma EarlierMovesExactly(server: Room, top: nat, sync: SyncState, items: seq<Item>)
    requires Clocked(server, top) && AnswersBefore(server, top, sync.earliest, items)
    ensures NewCursors(Some(sync), Before(sync.earliest), items).earliest < sync.earliest <==>
            Earlier(server, sync.earliest) && !Dammed(server, sync.earliest)
  {
    HeadIsSaved(items);
    if ToSave(items) != [] {
      var x := ToSave(items)[0];
      assert server[x.id] == Post(x.seqno, x.body);
      CursorsGoToTheExtremes(Some(sync), Before(sync.earliest), items);
    } else {
      CursorsStay(Some(sync), Before(sync.earliest), items);
    }
    if id :| id in server && id < sync.earliest && server[id].body.Content? {
      if ToSave(items) == [] {
        HiddenByDam(server, top, sync.earliest, items, id);
      }
      if dam: set<nat> :| Dam(server, sync.earliest, dam) {
        DamHidesTheRest(server, top, sync.earliest, dam, sync.earliest, items);
      }
    }
  }

  ghost predicate HonestLoads(server: Room, top: nat, answer: nat -> seq<Item>) {
    forall bound: nat :: AnswersBefore(server, top, bound, answer(bound))
  }

  /** The cursors after `n` loads of earlier messages. */
  function Loaded(sync: SyncState, answer: nat -> seq<Item>, n: nat): SyncState
    decreases n
  {
    if n == 0 then sync
    else Loaded(NewCursors(Some(sync), Before(sync.earliest), answer(sync.earliest)), answer, n - 1)
  }

  lemma EarlierStaysPut(sync: SyncState, answer: nat -> seq<Item>, items: seq<Item>)
    requires items == answer(sync.earliest) && InRange(Before(sync.earliest), items)
    requires NewCursors(Some(sync), Before(sync.earliest), items).earliest >= sync.earliest
    ensures NewCursors(Some(sync), Before(sync.earliest), items) == sync
  {
    if x :| x in items && x.body.Content? {
      CursorsGoToTheExtremes(Some(sync), Before(sync.earliest), items);
    } else {
      CursorsStay(Some(sync), Before(sync.earliest), items);
    }
  }

  lemma {:induction false} StuckEarlier(sync: SyncState, answer: nat -> seq<Item>, n: nat)
    requires NewCursors(Some(sync), Before(sync.earliest), answer(sync.earliest)) == sync
    ensures Loaded(sync, answer, n) == sync
    decreases n
  {
    if n > 0 {
      StuckEarlier(sync, answer, n - 1);
    }
  }

  /** Loading ends where nothing is earlier, or at a dam. */
  lemma {:induction false} LoadingEnds(server: Room, top: nat, sync: SyncState, answer: nat -> seq<Item>, n: nat)
    requires Clocked(server, top) && HonestLoads(server, top, answer) && n >= sync.earliest
    ensures var t := Loaded(sync, answer, n);
            t.earliest <= sync.earliest && (Earlier(server, t.earliest) ==> Dammed(server, t.earliest))
    decreases n
  {
    hide Dammed;
    var items := answer(sync.earliest);
    assert AnswersBefore(server, top, sync.earliest, items);
    var next := NewCursors(Some(sync), Before(sync.earliest), items);
    EarlierMovesExactly(server, top, sync, items);
    if n > 0 {
      if next.earliest < sync.earliest {
        LoadingEnds(server, top, next, answer, n - 1);
      } else {
        EarlierStaysPut(sync, answer, items);
        StuckEarlier(sync, answer, n);
      }
    }
  }

  /** Loads that start at or behind a dam stay there. */
  lemma {:induction false} LoadsStayBehind(server: Room, top: nat, sync: SyncState, answer: nat -> seq<Item>, n: nat,
                                           bound: nat, dam: set<nat>)
    requires Clocked(server, top) && HonestLoads(server, top, answer)
    requires Dam(server, bound, dam) && bound <= sync.earliest
    ensures bound <= Loaded(sync, answer, n).earliest
    decreases n
  {
    hide Dam, Clocked, Answers;
    if n > 0 {
      var items := answer(sync.earliest);
      assert AnswersBefore(server, top, sync.earliest, items);
      DamHidesTheRest(server, top, bound, dam, sync.earliest, items);
      if x :| x in items && x.body.Content? {
        CursorsGoToTheExtremes(Some(sync), Before(sync.earliest), items);
      } else {
        CursorsStay(Some(sync), Before(sync.earliest), items);
      }
      LoadsStayBehind(server, top, NewCursors(Some(sync), Before(sync.earliest), items), answer, n - 1, bound, dam);
    }
  }

  /** No dam at or before the cursor has an earlier message before it. */
  ghost predicate NothingDammedUp(server: Room, from: nat) {
    forall bound: nat :: bound <= from && Dammed(server, bound) ==> !Earlier(server, bound)
  }

  /** Loading earlier messages of a quiet room, often enough, reaches them all exactly if no dam hides one. */
  lemma LoadingReachesAllExactly(server: Room, top: nat, sync: SyncState, answer: nat -> seq<Item>, n: nat)
    requires Clocked(server, top) && HonestLoads(server, top, answer) && n >= sync.earliest
    ensures !Earlier(server, Loaded(sync, answer, n).earliest) <==> NothingDammedUp(server, sync.earliest)
  {
    var t := Loaded(sync, answer, n);
    LoadingEnds(server, top, sync, answer, n);
    if bound: nat :| bound <= sync.earliest && Dammed(server, bound) && Earlier(server, bound) {
      var dam: set<nat> :| Dam(server, bound, dam);
      LoadsStayBehind(server, top, sync, answer, n, bound, dam);
      assert Earlier(server, t.earliest);
    }
  }

  /** Once the first load is through, with messages or without any, the worker can poll from where it stands. */
  lemma FirstLoadLetsPollingStart(c: Client, room: nat, items: seq<Item>, commits: bool)
    requires c.sync.None?
    ensures var t := Received(c, room, Recent, items, commits);
            t.sync.Some? <==> commits || forall x :: x in items ==> x.body.Garbage?
  {
    IdleExactly(items);
  }
}
