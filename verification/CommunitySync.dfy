/**
 The sync of one community room (worker/community/download_community_messages.rs): two cursors over
 a room that other people keep writing to.
 */
module CommunitySync {
  import opened Wrappers

  import opened CommunityStore

  // ---------- the client ----------

  datatype Kind = Recent | Before(bound: nat) | Since(after: nat)

  predicate UpdatesEarliest(kind: Kind) {
    !kind.Since?
  }

  predicate UpdatesLatest(kind: Kind) {
    !kind.Before?
  }

  /** The in-memory cursors, none until the first load has succeeded, and the tables. */
  datatype Client = Client(sync: Option<SyncState>, db: Db)

  /** Which request the main loop can make next. */
  predicate CanAsk(sync: Option<SyncState>, kind: Kind) {
    match kind
    case Recent => sync.None?
    case Before(bound) => sync.Some? && sync.value.hasEarlier && sync.value.earliest == bound
    case Since(after) => sync.Some? && sync.value.latest == after
  }

  function Stored(db: Db, room: nat): Option<SyncState> {
    if room in db.syncStates then Some(db.syncStates[room]) else None
  }

  function Cursors(sync: Option<SyncState>): SyncState {
    if sync.Some? then sync.value else SyncState(true, 0, 0)
  }

  function NewCursors(sync: Option<SyncState>, kind: Kind, items: seq<Item>): SyncState {
    Moved(Cursors(sync), ToSave(items), UpdatesEarliest(kind), UpdatesLatest(kind))
  }

  predicate Idle(items: seq<Item>) {
    ToSave(items) == [] && ToDelete(items) == []
  }

  /** A first load that cannot be saved ends the worker. */
  function Received(c: Client, room: nat, kind: Kind, items: seq<Item>, commits: bool): Client {
    var sync := NewCursors(c.sync, kind, items);
    if Idle(items) then c.(sync := Some(sync))
    else if commits then Client(Some(sync), Committed(c.db, room, items, sync))
    else c.(sync := if c.sync.None? then None else Some(sync))
  }

  /** A response that may be an error. */
  function Handled(c: Client, room: nat, kind: Kind, response: Result<seq<Item>, string>, commits: bool): Client {
    if response.Ok? then Received(c, room, kind, response.value, commits) else c
  }

  /** What the caller of a load is told: how many messages were saved. */
  function Reported(response: Result<seq<Item>, string>, commits: bool): Result<nat, string> {
    match response
    case Err(e) => Err(e)
    case Ok(items) => if Idle(items) || commits then Ok(|ToSave(items)|) else Err("Saving messages")
  }

  class CommunityDownloader {
    const room: nat
    const repo: Repository
    var syncState: Option<SyncState>

    constructor (room: nat, repo: Repository)
      ensures this.room == room && this.repo == repo
      ensures View() == Client(if room in repo.syncStates then Some(repo.syncStates[room]) else None, repo.View())
    {
      this.room, this.repo := room, repo;
      syncState := if room in repo.syncStates then Some(repo.syncStates[room]) else None;
    }

    ghost function View(): Client
      reads this, repo
    {
      Client(syncState, repo.View())
    }

    /** A request that fails changes nothing. */
    method LoadLatest(response: Result<seq<Item>, string>, commits: bool) returns (saved: Result<nat, string>)
      requires syncState.Some?
      modifies this, repo
      ensures View() == Handled(old(View()), room, Since(old(syncState.value.latest)), response, commits)
      ensures saved == Reported(response, commits)
    {
      if response.Err? {
        return Err(response.error);
      }
      var sync;
      saved, sync := repo.SaveMessagesAndSyncState(room, response.value, syncState.value, false, true, commits);
      syncState := Some(sync);
    }

    method LoadEarlier(response: Result<seq<Item>, string>, commits: bool) returns (saved: Result<nat, string>)
      requires syncState.Some?
      modifies this, repo
      ensures View() == Handled(old(View()), room, Before(old(syncState.value.earliest)), response, commits)
      ensures saved == Reported(response, commits)
    {
      if response.Err? {
        return Err(response.error);
      }
      var sync;
      saved, sync := repo.SaveMessagesAndSyncState(room, response.value, syncState.value, true, false, commits);
      syncState := Some(sync);
    }

    /** The main loop's answer to a load-earlier command. */
    method OnLoadEarlierCommand(response: Result<seq<Item>, string>, commits: bool)
      returns (callback: Result<nat, string>)
      requires syncState.Some?
      modifies this, repo
      ensures View() == if CanAsk(old(syncState), Before(old(syncState.value.earliest)))
                        then Handled(old(View()), room, Before(old(syncState.value.earliest)), response, commits)
                        else old(View())
      ensures callback == if CanAsk(old(syncState), Before(old(syncState.value.earliest)))
                          then Reported(response, commits) else Ok(0)
    {
      if !syncState.value.hasEarlier {
        return Ok(0);
      }
      callback := LoadEarlier(response, commits);
    }

    method LoadInitial(messages: seq<Item>, commits: bool) returns (saved: Result<nat, string>)
      requires syncState.None?
      modifies this, repo
      ensures View() == Received(old(View()), room, Recent, messages, commits)
      ensures saved == Reported(Ok(messages), commits)
    {
      var sync;
      saved, sync := repo.SaveMessagesAndSyncState(room, messages, SyncState(true, 0, 0), true, true, commits);
      if saved.Ok? {
        syncState := Some(sync);
      }
    }
  }

  // ---------- the server ----------

  datatype Post = Post(seqno: nat, body: Body)

  type Room = map<nat, Post>

  /** Each item was on the server when the clock of the room stood at `upTo`. */
  ghost predicate Genuine(server: Room, upTo: nat, items: seq<Item>) {
    forall x :: x in items ==>
      x.seqno <= upTo && x.id in server
      && (server[x.id] == Post(x.seqno, x.body) || (upTo < server[x.id].seqno && x.body != Gone))
  }

  /** A response names a message once. */
  predicate DistinctIds(items: seq<Item>) {
    forall i, j :: 0 <= i < j < |items| ==> items[i].id != items[j].id
  }

  predicate InRange(kind: Kind, items: seq<Item>) {
    forall x :: x in items ==> (kind.Since? ==> x.seqno > kind.after) && (kind.Before? ==> x.id < kind.bound)
  }

  /** `since` returns the lowest sequence numbers, `before` and `recent` the highest ids that are not deleted. */
  ghost predicate Reaches(kind: Kind, items: seq<Item>, id: nat, post: Post) {
    match kind
    case Since(after) => post.seqno > after && (|items| < LOAD_LIMIT || exists y :: y in items && post.seqno <= y.seqno)
    case Before(bound) =>
      id < bound && post.body != Gone && (|items| < LOAD_LIMIT || exists y :: y in items && y.id <= id)
    case Recent => post.body != Gone && (|items| < LOAD_LIMIT || exists y :: y in items && y.id <= id)
  }

  /** `items` answered a request made when the clock stood at `upTo`; the server may have moved on since. */
  ghost predicate Answers(server: Room, upTo: nat, kind: Kind, items: seq<Item>) {
    && |items| <= LOAD_LIMIT
    && DistinctIds(items)
    && Genuine(server, upTo, items)
    && InRange(kind, items)
    && Complete(server, upTo, kind, items)
  }

  ghost predicate Complete(server: Room, upTo: nat, kind: Kind, items: seq<Item>) {
    forall id :: id in server && server[id].seqno <= upTo && Reaches(kind, items, id, server[id]) ==>
      Item(id, server[id].seqno, server[id].body) in items
  }

  /** Every post has a sequence number between 1 and the clock. */
  ghost predicate Clocked(server: Room, top: nat) {
    forall id :: id in server ==> 0 < server[id].seqno <= top
  }

  lemma WriteKeepsAnswers(server: Room, upTo: nat, kind: Kind, items: seq<Item>, id: nat, post: Post)
    requires Answers(server, upTo, kind, items) && upTo < post.seqno
    requires id in server ==> server[id].body != Gone
    ensures Answers(server[id := post], upTo, kind, items)
  {
  }

  // ---------- where the cursors go ----------

  /**
   A response with messages sets the cursors it is for, and only those, to the extremes of the messages:
   the backward cursor to the least id unless it was a poll, the forward one to the greatest sequence
   number unless it was a load of earlier messages.
   */
  lemma CursorsGoToTheExtremes(sync: Option<SyncState>, kind: Kind, items: seq<Item>)
    requires exists x :: x in items && x.body.Content?
    ensures var t := NewCursors(sync, kind, items);
            && (kind.Since? ==> t.earliest == Cursors(sync).earliest)
            && (kind.Before? ==> t.latest == Cursors(sync).latest)
            && (!kind.Since? ==>
                  (exists x :: x in items && x.body.Content? && x.id == t.earliest)
                  && forall x :: x in items && x.body.Content? ==> t.earliest <= x.id)
            && (!kind.Before? ==>
                  (exists x :: x in items && x.body.Content? && x.seqno == t.latest)
                  && forall x :: x in items && x.body.Content? ==> x.seqno <= t.latest)
            && (!kind.Since? || Cursors(sync).hasEarlier ==> t.hasEarlier)
  {
    var saves := ToSave(items);
    assert saves != [] by {
      var x :| x in items && x.body.Content?;
      assert x in saves;
    }
    var first := MinIdIsLeast(saves);
    var last := MaxSeqIsGreatest(saves);
  }

  /** A response without messages moves nothing. */
  lemma CursorsStay(sync: Option<SyncState>, kind: Kind, items: seq<Item>)
    requires forall x :: x in items ==> !x.body.Content?
    ensures NewCursors(sync, kind, items) == Cursors(sync)
  {
    HeadIsSaved(items);
  }

  lemma HeadIsSaved(items: seq<Item>)
    ensures ToSave(items) != [] ==> ToSave(items)[0] in items && ToSave(items)[0].body.Content?
  {
  }

  // ---------- what the cursors promise ----------

  /** No decodable message between the cursors is missing. */
  ghost predicate NoGap(server: Room, rows: Rows, room: nat, sync: SyncState) {
    forall id :: id in server && id >= sync.earliest && server[id].seqno <= sync.latest && server[id].body.Content? ==>
      Key(room, id) in rows
  }

  /** A stored message whose deletion lies behind the cursor is marked. */
  ghost predicate DeletesSeen(server: Room, rows: Rows, room: nat, sync: SyncState) {
    forall id :: id in server && server[id].seqno <= sync.latest && server[id].body.Gone? && Key(room, id) in rows ==>
      rows[Key(room, id)].deleted
  }

  ghost predicate Synced(server: Room, rows: Rows, room: nat, sync: SyncState) {
    NoGap(server, rows, room, sync) && DeletesSeen(server, rows, room, sync)
  }

  /** What a response newly brings behind the cursors is in the response. */
  lemma CursorCovers(server: Room, top: nat, upTo: nat, old_: Option<SyncState>, kind: Kind, items: seq<Item>, id: nat)
    requires Clocked(server, top) && Answers(server, upTo, kind, items) && CanAsk(old_, kind)
    requires Cursors(old_).latest <= upTo && id in server && server[id].body != Gone
    requires var new_ := NewCursors(old_, kind, items); id >= new_.earliest && server[id].seqno <= new_.latest
    requires !(id >= Cursors(old_).earliest && server[id].seqno <= Cursors(old_).latest)
    ensures Item(id, server[id].seqno, server[id].body) in items
  {
    var saves := ToSave(items);
    var first := MinIdIsLeast(saves);
    var last := MaxSeqIsGreatest(saves);
    assert Reaches(kind, items, id, server[id]);
  }

  lemma NewRow(rows: Rows, room: nat, items: seq<Item>, id: nat)
    ensures var r := MarkDeleted(InsertAll(rows, room, ToSave(items)), ToDelete(items));
            && (Key(room, id) in rows ==> Key(room, id) in r)
            && (Key(room, id) in r && Key(room, id) !in rows ==>
                  exists x :: x in items && x.id == id && x.body.Content?)
            && (Key(room, id) in rows && rows[Key(room, id)].deleted ==> r[Key(room, id)].deleted)
            && (forall x :: x in items && x.id == id && x.body.Content? ==> Key(room, id) in r)
            && (forall x :: x in items && x.id == id && x.body.Gone? && Key(room, id) in r ==> r[Key(room, id)].deleted)
  {
  }

  /** A committed response keeps both promises, whatever was written since it was asked for. */
  lemma SaveKeepsSynced(server: Room, top: nat, upTo: nat, c: Client, room: nat, kind: Kind, items: seq<Item>)
    requires Clocked(server, top) && Answers(server, upTo, kind, items) && CanAsk(c.sync, kind)
    requires Cursors(c.sync).latest <= upTo && Synced(server, c.db.rows, room, Cursors(c.sync))
    requires kind.Recent? ==> forall k :: k in c.db.rows ==> k.room != room
    ensures var sync := NewCursors(c.sync, kind, items);
            Synced(server, Committed(c.db, room, items, sync).rows, room, sync)
  {
    var sync := NewCursors(c.sync, kind, items);
    var rows := Committed(c.db, room, items, sync).rows;
    forall id | id in server && id >= sync.earliest && server[id].seqno <= sync.latest && server[id].body.Content?
      ensures Key(room, id) in rows
    {
      NewRow(c.db.rows, room, items, id);
      if !(id >= Cursors(c.sync).earliest && server[id].seqno <= Cursors(c.sync).latest) {
        CursorCovers(server, top, upTo, c.sync, kind, items, id);
      }
    }
    forall id | id in server && server[id].seqno <= sync.latest && server[id].body.Gone? && Key(room, id) in rows
      ensures rows[Key(room, id)].deleted
    {
      DeleteSeen(server, top, upTo, c, room, kind, items, id);
    }
  }

  lemma NewLatest(server: Room, upTo: nat, sync: Option<SyncState>, kind: Kind, items: seq<Item>)
    requires Answers(server, upTo, kind, items) && Cursors(sync).latest <= upTo
    ensures NewCursors(sync, kind, items).latest <= upTo
    ensures kind.Since? && sync.Some? && sync.value.latest == kind.after ==>
              Cursors(sync).latest <= NewCursors(sync, kind, items).latest
  {
    if ToSave(items) != [] {
      var last := MaxSeqIsGreatest(ToSave(items));
    }
  }

  lemma DeleteSeen(server: Room, top: nat, upTo: nat, c: Client, room: nat, kind: Kind, items: seq<Item>, id: nat)
    requires Clocked(server, top) && Answers(server, upTo, kind, items) && CanAsk(c.sync, kind)
    requires Cursors(c.sync).latest <= upTo && DeletesSeen(server, c.db.rows, room, Cursors(c.sync))
    requires kind.Recent? ==> forall k :: k in c.db.rows ==> k.room != room
    ensures var sync := NewCursors(c.sync, kind, items);
            var rows := Committed(c.db, room, items, sync).rows;
            id in server && server[id].seqno <= sync.latest && server[id].body.Gone? && Key(room, id) in rows ==>
              rows[Key(room, id)].deleted
  {
    var rows := Committed(c.db, room, items, NewCursors(c.sync, kind, items)).rows;
    if id in server && server[id].body.Gone? && Key(room, id) in rows
       && Cursors(c.sync).latest < server[id].seqno <= NewCursors(c.sync, kind, items).latest
    {
      var last := MaxSeqIsGreatest(ToSave(items));
      assert Reaches(kind, items, id, server[id]) || Key(room, id) !in c.db.rows;
    }
    NewRow(c.db.rows, room, items, id);
    NewLatest(server, upTo, c.sync, kind, items);
  }

  /** Every message of the response that lies between the cursors, and is still there unedited, is stored. */
  ghost predicate NothingLost(server: Room, rows: Rows, room: nat, sync: SyncState, items: seq<Item>)
    requires forall x :: x in items ==> x.id in server
  {
    forall x :: x in ToSave(items) && server[x.id] == Post(x.seqno, x.body) ==>
      (x.id >= sync.earliest && x.seqno <= sync.latest ==> Key(room, x.id) in rows)
  }

  /**
   When the transaction fails the in-memory cursors have moved all the same. They keep their promise
   exactly if every message they moved over, and that is still there unedited, was stored before.
   */
  lemma FailedSaveGapExactly(server: Room, top: nat, upTo: nat, c: Client, room: nat, kind: Kind, items: seq<Item>)
    requires Clocked(server, top) && Answers(server, upTo, kind, items) && CanAsk(c.sync, kind)
    requires Cursors(c.sync).latest <= upTo && NoGap(server, c.db.rows, room, Cursors(c.sync))
    ensures var sync := NewCursors(c.sync, kind, items);
            NoGap(server, c.db.rows, room, sync) <==>
            NothingLost(server, c.db.rows, room, sync, items)
  {
    var sync := NewCursors(c.sync, kind, items);
    if NothingLost(server, c.db.rows, room, sync, items) {
      forall id | id in server && id >= sync.earliest && server[id].seqno <= sync.latest && server[id].body.Content?
        ensures Key(room, id) in c.db.rows
      {
        if !(id >= Cursors(c.sync).earliest && server[id].seqno <= Cursors(c.sync).latest) {
          CursorCovers(server, top, upTo, c.sync, kind, items, id);
        }
      }
    }
  }

  /** Every decodable message between the cursors is stored or in the response. */
  ghost predicate CoveredOrStored(server: Room, rows: Rows, room: nat, sync: SyncState, items: seq<Item>) {
    forall id :: id in server && id >= sync.earliest && server[id].seqno <= sync.latest && server[id].body.Content? ==>
      Key(room, id) in rows || exists x :: x in ToSave(items) && x.id == id
  }

  /** A response never takes anything out from between the cursors. */
  lemma CursorsWiden(c: Client, server: Room, upTo: nat, kind: Kind, items: seq<Item>)
    requires Answers(server, upTo, kind, items) && CanAsk(c.sync, kind) && !kind.Recent?
    ensures var sync := NewCursors(c.sync, kind, items);
            sync.earliest <= Cursors(c.sync).earliest && Cursors(c.sync).latest <= sync.latest
  {
    if ToSave(items) != [] {
      var first := MinIdIsLeast(ToSave(items));
      var last := MaxSeqIsGreatest(ToSave(items));
    }
  }

  /**
   After a committed response the new cursors, in memory and stored, have no gap exactly if every
   decodable message between the cursors before was stored or is in the response: whatever was lost
   by then is lost for good.
   */
  lemma CommittedGapExactly(server: Room, top: nat, upTo: nat, c: Client, room: nat, kind: Kind, items: seq<Item>)
    requires Clocked(server, top) && Answers(server, upTo, kind, items) && CanAsk(c.sync, kind)
    requires Cursors(c.sync).latest <= upTo && !Idle(items)
    ensures var after := Received(c, room, kind, items, true);
            after.sync.Some? && Stored(after.db, room) == after.sync
            && (NoGap(server, after.db.rows, room, after.sync.value)
                <==> CoveredOrStored(server, c.db.rows, room, Cursors(c.sync), items))
  {
    var old_, sync := Cursors(c.sync), NewCursors(c.sync, kind, items);
    var rows := Committed(c.db, room, items, sync).rows;
    if CoveredOrStored(server, c.db.rows, room, old_, items) {
      forall id | id in server && id >= sync.earliest && server[id].seqno <= sync.latest && server[id].body.Content?
        ensures Key(room, id) in rows
      {
        NewRow(c.db.rows, room, items, id);
        if !(id >= old_.earliest && server[id].seqno <= old_.latest) {
          CursorCovers(server, top, upTo, c.sync, kind, items, id);
        }
      }
    }
    if NoGap(server, rows, room, sync) {
      forall id | id in server && id >= old_.earliest && server[id].seqno <= old_.latest && server[id].body.Content?
        ensures Key(room, id) in c.db.rows || exists x :: x in ToSave(items) && x.id == id
      {
        CursorsWiden(c, server, upTo, kind, items);
        NewRow(c.db.rows, room, items, id);
        assert Key(room, id) in rows;
      }
    }
  }

  // ---------- runs ----------

  datatype Asked = Asked(kind: Kind, upTo: nat, items: seq<Item>)

  datatype State = State(
    room: nat,
    client: Client,
    asked: Option<Asked>,
    server: Room,
    top: nat,
    // history
    posted: set<(nat, nat)>,  // every text a message ever had
    elsewhere: set<nat>,  // ids other rooms have marked
    ahead: bool,  // a transaction with messages to save has failed since the cursors were loaded
    gap: bool)  // and a later one has committed

  datatype Event =
    | Write(id: nat, body: Body)
    | Ask(kind: Kind, items: seq<Item>)
    | Response(commits: bool)
    | Restart
    | Elsewhere(rows: Rows, deleted: seq<nat>)

  ghost predicate Enabled(s: State, e: Event) {
    match e
    case Write(id, _) => id in s.server ==> s.server[id].body != Gone
    case Ask(kind, items) => s.asked.None? && CanAsk(s.client.sync, kind) && Answers(s.server, s.top, kind, items)
    case Response(_) => s.asked.Some?
    case Restart => true
    case Elsewhere(rows, _) => forall k :: k in rows ==> k.room != s.room
  }

  /** A write takes the next sequence number; an answer is fixed when it is asked for and handled later. */
  ghost function Step(s: State, e: Event): State
    requires Enabled(s, e)
  {
    match e
    case Write(id, body) =>
      s.(server := s.server[id := Post(s.top + 1, body)], top := s.top + 1,
         posted := if body.Content? then s.posted + {(id, body.text)} else s.posted)
    case Ask(kind, items) => s.(asked := Some(Asked(kind, s.top, items)))
    case Response(commits) =>
      var Asked(kind, _, items) := s.asked.value;
      s.(client := Received(s.client, s.room, kind, items, commits), asked := None,
         ahead := s.ahead || (!commits && ToSave(items) != [] && s.client.sync.Some?),
         gap := s.gap || (s.ahead && commits && !Idle(items)))
    case Restart =>
      s.(client := s.client.(sync := Stored(s.client.db, s.room)), asked := None, ahead := false)
    case Elsewhere(rows, deleted) =>
      s.(client := s.client.(db := s.client.db.(rows := MarkDeleted(s.client.db.rows + rows, deleted))),
         elsewhere := s.elsewhere + (set id | id in deleted))
  }

  /** Nothing is known of the room yet. */
  function Initial(room: nat, others: Rows): State {
    State(room, Client(None, Db(others, map[])), None, map[], 0, {}, {}, false, false)
  }

  ghost function Run(s: State, events: seq<Event>): State
    decreases |events|
  {
    if events == [] then s
    else if Enabled(s, events[0]) then Run(Step(s, events[0]), events[1..])
    else Run(s, events[1..])
  }

  ghost predicate AskedWell(s: State) {
    s.asked.Some? ==>
      var a := s.asked.value;
      a.upTo <= s.top && Answers(s.server, a.upTo, a.kind, a.items) && CanAsk(s.client.sync, a.kind)
      && Cursors(s.client.sync).latest <= a.upTo
  }

  /** What holds in every state, failing transactions or not. */
  ghost predicate Sound(s: State) {
    && Clocked(s.server, s.top)
    && AskedWell(s)
    && Cursors(s.client.sync).latest <= s.top
    && Cursors(Stored(s.client.db, s.room)).latest <= s.top
    && (s.client.sync.None? ==> Stored(s.client.db, s.room).None?)
    && (Stored(s.client.db, s.room).None? ==> forall k :: k in s.client.db.rows ==> k.room != s.room)
  }

  /** The cursors keep their promises: the stored ones until a lost batch is committed over. */
  ghost predicate Promised(s: State) {
    var rows := s.client.db.rows;
    && (!s.gap ==> Synced(s.server, rows, s.room, Cursors(Stored(s.client.db, s.room))))
    && (!s.gap && !s.ahead ==> Synced(s.server, rows, s.room, Cursors(s.client.sync)))
  }

  lemma WriteKeeps(s: State, id: nat, body: Body)
    requires Sound(s) && Promised(s) && Enabled(s, Write(id, body))
    ensures Sound(Step(s, Write(id, body))) && Promised(Step(s, Write(id, body)))
  {
    if s.asked.Some? {
      var Asked(kind, upTo, items) := s.asked.value;
      WriteKeepsAnswers(s.server, upTo, kind, items, id, Post(s.top + 1, body));
    }
  }

  lemma ResponseKeepsSound(s: State, commits: bool)
    requires Sound(s) && Enabled(s, Response(commits))
    ensures Sound(Step(s, Response(commits)))
  {
    var Asked(kind, upTo, items) := s.asked.value;
    NewLatest(s.server, upTo, s.client.sync, kind, items);
  }

  lemma ResponseKeepsPromises(s: State, commits: bool)
    requires Sound(s) && Promised(s) && Enabled(s, Response(commits))
    ensures Promised(Step(s, Response(commits)))
  {
    var Asked(kind, upTo, items) := s.asked.value;
    if !s.gap && !s.ahead {
      SaveKeepsSynced(s.server, s.top, upTo, s.client, s.room, kind, items);
    }
  }

  lemma ElsewhereKeeps(s: State, rows: Rows, deleted: seq<nat>)
    requires Sound(s) && Promised(s) && Enabled(s, Elsewhere(rows, deleted))
    ensures Sound(Step(s, Elsewhere(rows, deleted))) && Promised(Step(s, Elsewhere(rows, deleted)))
  {
  }

  lemma StepKeeps(s: State, e: Event)
    requires Sound(s) && Promised(s) && Enabled(s, e)
    ensures Sound(Step(s, e)) && Promised(Step(s, e))
  {
    match e
    case Write(id, body) => WriteKeeps(s, id, body);
    case Ask(_, _) =>
    case Response(commits) =>
      ResponseKeepsSound(s, commits);
      ResponseKeepsPromises(s, commits);
    case Restart =>
    case Elsewhere(rows, deleted) => ElsewhereKeeps(s, rows, deleted);
  }

  lemma {:induction false} RunKeeps(s: State, events: seq<Event>)
    requires Sound(s) && Promised(s)
    ensures Sound(Run(s, events)) && Promised(Run(s, events))
    decreases |events|
  {
    hide Sound, Promised, Enabled, Step;
    if events != [] {
      if Enabled(s, events[0]) {
        StepKeeps(s, events[0]);
        RunKeeps(Step(s, events[0]), events[1..]);
      } else {
        RunKeeps(s, events[1..]);
      }
    }
  }

  /**
   In every reachable state: the stored cursors have no gap and no deletion missed unless a batch was
   committed after one that failed, with no restart in between; the cursors in memory, unless a
   batch has failed since they were loaded.
   */
  lemma CursorsKeepTheirPromise(room: nat, others: Rows, events: seq<Event>)
    requires forall k :: k in others ==> k.room != room
    ensures var s := Run(Initial(room, others), events);
            var stored := Stored(s.client.db, s.room);
            && (!s.gap && stored.Some? ==> Synced(s.server, s.client.db.rows, s.room, stored.value))
            && (!s.gap && !s.ahead && s.client.sync.Some? ==>
                  Synced(s.server, s.client.db.rows, s.room, s.client.sync.value))
  {
    RunKeeps(Initial(room, others), events);
  }

  /**
   In every reachable state, failures or not: a response that is committed next leaves the stored
   cursors without a gap exactly if every decodable message between the cursors is stored or in it.
   */
  lemma StoredGapExactly(room: nat, others: Rows, events: seq<Event>)
    requires forall k :: k in others ==> k.room != room
    ensures var s := Run(Initial(room, others), events);
            s.asked.Some? && !Idle(s.asked.value.items) ==>
              var t := Step(s, Response(true));
              var stored := Stored(t.client.db, t.room);
              stored.Some?
              && (NoGap(t.server, t.client.db.rows, t.room, stored.value)
                  <==> CoveredOrStored(s.server, s.client.db.rows, s.room, Cursors(s.client.sync), s.asked.value.items))
  {
    RunKeeps(Initial(room, others), events);
    var s := Run(Initial(room, others), events);
    if s.asked.Some? && !Idle(s.asked.value.items) {
      var Asked(kind, upTo, items) := s.asked.value;
      CommittedGapExactly(s.server, s.top, upTo, s.client, s.room, kind, items);
    }
  }

  /** No transaction of the run fails. */
  predicate AllCommit(events: seq<Event>) {
    forall i :: 0 <= i < |events| && events[i].Response? ==> events[i].commits
  }

  lemma {:induction false} NeverAhead(s: State, events: seq<Event>)
    requires AllCommit(events) && !s.ahead && !s.gap
    ensures !Run(s, events).ahead && !Run(s, events).gap
    decreases |events|
  {
    if events != [] {
      assert AllCommit(events[1..]);
      NeverAhead(if Enabled(s, events[0]) then Step(s, events[0]) else s, events[1..]);
    }
  }

  /**
   If every transaction commits, every decodable message that is on the server, between the earliest
   id and the latest sequence number, is stored: polls, loads of earlier messages, writes, edits and
   restarts may come in any order.
   */
  lemma NoGapsWhenAllCommit(room: nat, others: Rows, events: seq<Event>)
    requires AllCommit(events) && forall k :: k in others ==> k.room != room
    ensures var s := Run(Initial(room, others), events);
            s.client.sync.Some? ==> Synced(s.server, s.client.db.rows, s.room, s.client.sync.value)
  {
    CursorsKeepTheirPromise(room, others, events);
    NeverAhead(Initial(room, others), events);
  }

  lemma RunsOn(s: State, e: Event, rest: seq<Event>)
    requires Enabled(s, e)
    ensures Run(s, [e] + rest) == Run(Step(s, e), rest)
  {
    assert ([e] + rest)[1..] == rest;
  }

  lemma Stops(s: State)
    ensures Run(s, []) == s
  {
  }

  lemma OneMessage(x: Item, c: Client, room: nat, after: nat, commits: bool)
    requires x.body.Content? && c.sync.Some? && c.db.rows == map[]
    ensures Received(c, room, Since(after), [x], commits) ==
            Client(Some(c.sync.value.(latest := x.seqno)),
                   if commits then
                     Db(map[Key(room, x.id) := Row(x.body.text, false)],
                        c.db.syncStates[room := c.sync.value.(latest := x.seqno)])
                   else c.db)
    ensures ToSave([x]) == [x] && !Idle([x])
  {
    assert [x][..0] == [];
    assert ToSave([x]) == [x] && ToDelete([x]) == [];
    assert MaxSeq([x]) == x.seqno;
    assert InsertAll(map[], room, [x]) == map[Key(room, x.id) := Row(x.body.text, false)];
  }

  /** A message is posted, asked for and answered. */
  lemma PollOne(s: State, id: nat, text: nat, commits: bool, rest: seq<Event>)
    requires s.asked.None? && s.client.sync.Some? && s.client.db.rows == map[]
    requires s.client.sync.value.latest == s.top && id !in s.server && Clocked(s.server, s.top)
    ensures var x := Item(id, s.top + 1, Content(text));
            Run(s, [Write(id, x.body)] + ([Ask(Since(s.top), [x])] + ([Response(commits)] + rest)))
            == Run(s.(client := Received(s.client, s.room, Since(s.top), [x], commits),
                      server := s.server[id := Post(s.top + 1, x.body)], top := s.top + 1,
                      posted := s.posted + {(id, text)},
                      ahead := s.ahead || !commits, gap := s.gap || (s.ahead && commits)), rest)
  {
    hide Received, Run;
    var x := Item(id, s.top + 1, Content(text));
    OneMessage(x, s.client, s.room, s.top, commits);
    var s1 := Step(s, Write(id, x.body));
    assert Answers(s1.server, s1.top, Since(s.top), [x]);
    var s2 := Step(s1, Ask(Since(s.top), [x]));
    RunsOn(s2, Response(commits), rest);
    RunsOn(s1, Ask(Since(s.top), [x]), [Response(commits)] + rest);
    RunsOn(s, Write(id, x.body), [Ask(Since(s.top), [x])] + ([Response(commits)] + rest));
  }

  /** A failed transaction, then a committed one: the message of the first is lost behind the stored cursor. */
  lemma CommitAfterFailure(s: State, id: nat, other: nat, text: nat) returns (events: seq<Event>)
    requires Clocked(s.server, s.top) && s.asked.None? && s.client.sync.Some? && s.client.db.rows == map[]
    requires s.client.sync.value.latest == s.top && s.client.sync.value.earliest <= id
    requires id !in s.server && other !in s.server && id != other
    ensures var t := Run(s, events);
            var stored := Stored(t.client.db, t.room);
            stored.Some? && !NoGap(t.server, t.client.db.rows, t.room, stored.value)
  {
    hide Received, Run;
    var x, y := Item(id, s.top + 1, Content(text)), Item(other, s.top + 2, Content(text));
    OneMessage(x, s.client, s.room, s.top, false);
    var t := s.(client := Received(s.client, s.room, Since(s.top), [x], false),
                server := s.server[id := Post(s.top + 1, x.body)], top := s.top + 1,
                posted := s.posted + {(id, text)}, ahead := true);
    OneMessage(y, t.client, s.room, t.top, true);
    var more := [Write(other, y.body)] + ([Ask(Since(t.top), [y])] + ([Response(true)] + []));
    PollOne(s, id, text, false, more);
    PollOne(t, other, text, true, []);
    events := [Write(id, x.body)] + ([Ask(Since(s.top), [x])] + ([Response(false)] + more));
    Stops(t.(client := Received(t.client, s.room, Since(t.top), [y], true),
             server := t.server[other := Post(t.top + 1, y.body)], top := t.top + 1,
             posted := t.posted + {(other, text)}, gap := true));
    assert t.server[other := Post(t.top + 1, y.body)][id] == Post(s.top + 1, x.body);
  }

  lemma CommitAfterFailureLosesMessage() returns (events: seq<Event>)
    ensures var s := Run(Initial(0, map[]), events);
            var stored := Stored(s.client.db, s.room);
            stored.Some? && !NoGap(s.server, s.client.db.rows, s.room, stored.value)
  {
    var s0 := Initial(0, map[]);
    var s1 := Step(s0, Ask(Recent, []));
    var s2 := Step(s1, Response(true));
    events := CommitAfterFailure(s2, 5, 6, 7);
    RunsOn(s1, Response(true), events);
    events := [Response(true)] + events;
    RunsOn(s0, Ask(Recent, []), events);
    events := [Ask(Recent, [])] + events;
  }

  // ---------- what the rows say ----------

  /** A stored text is one the message had, and a mark has a reason. */
  ghost predicate RowsAreGenuine(s: State) {
    var rows := s.client.db.rows;
    && (forall id: nat :: Key(s.room, id) in rows ==> (id, rows[Key(s.room, id)].text) in s.posted)
    && (forall id :: Key(s.room, id) in rows && rows[Key(s.room, id)].deleted ==>
          id in s.elsewhere || (id in s.server && s.server[id].body == Gone))
    && (forall id :: id in s.server && s.server[id].body.Content? ==> (id, s.server[id].body.text) in s.posted)
    && (s.asked.Some? ==> forall x :: x in s.asked.value.items && x.body.Content? ==> (x.id, x.body.text) in s.posted)
  }

  lemma WhereRowsComeFrom(db: Db, room: nat, items: seq<Item>, sync: SyncState, id: nat)
    requires Key(room, id) in Committed(db, room, items, sync).rows
    ensures var row, k := Committed(db, room, items, sync).rows[Key(room, id)], Key(room, id);
            && (if k in db.rows then row.text == db.rows[k].text
                else exists x :: x in items && x.id == id && x.body == Content(row.text))
            && (row.deleted ==>
                  (k in db.rows && db.rows[k].deleted) || exists x :: x in items && x.id == id && x.body == Gone)
  {
  }

  lemma ResponseKeepsRows(s: State, commits: bool)
    requires Sound(s) && RowsAreGenuine(s) && Enabled(s, Response(commits))
    ensures RowsAreGenuine(Step(s, Response(commits)))
  {
    hide ToSave, ToDelete, Committed, Clocked;
    var Asked(kind, _, items) := s.asked.value;
    var t := Step(s, Response(commits));
    if t.client.db != s.client.db {
      var sync := NewCursors(s.client.sync, kind, items);
      forall id: nat | Key(s.room, id) in t.client.db.rows
        ensures var row := t.client.db.rows[Key(s.room, id)];
                (id, row.text) in t.posted
                && (row.deleted ==> id in t.elsewhere || (id in t.server && t.server[id].body == Gone))
      {
        WhereRowsComeFrom(s.client.db, s.room, items, sync, id);
      }
    }
  }

  lemma StepKeepsRows(s: State, e: Event)
    requires Sound(s) && RowsAreGenuine(s) && Enabled(s, e)
    ensures RowsAreGenuine(Step(s, e))
  {
    match e
    case Write(_, _) =>
    case Ask(_, _) =>
    case Response(commits) => ResponseKeepsRows(s, commits);
    case Restart =>
    case Elsewhere(_, _) =>
  }

  lemma {:induction false} RunKeepsRows(s: State, events: seq<Event>)
    requires Sound(s) && Promised(s) && RowsAreGenuine(s)
    ensures RowsAreGenuine(Run(s, events))
    decreases |events|
  {
    hide Sound, Promised, Enabled, Step, RowsAreGenuine;
    if events != [] {
      if Enabled(s, events[0]) {
        StepKeeps(s, events[0]);
        StepKeepsRows(s, events[0]);
        RunKeepsRows(Step(s, events[0]), events[1..]);
      } else {
        RunKeepsRows(s, events[1..]);
      }
    }
  }

  /**
   In every reachable state each stored message shows a text it had on the server, and one marked
   deleted is deleted on the server, unless another room marked a message of the same id.
   */
  lemma StoredMessagesAreGenuine(room: nat, others: Rows, events: seq<Event>, id: nat)
    requires forall k :: k in others ==> k.room != room
    ensures var s := Run(Initial(room, others), events);
            Key(s.room, id) in s.client.db.rows ==>
              var row := s.client.db.rows[Key(s.room, id)];
              (id, row.text) in s.posted
              && (row.deleted ==> id in s.elsewhere || (id in s.server && s.server[id].body == Gone))
  {
    RunKeepsRows(Initial(room, others), events);
  }

  /** Saving a response leaves the rows of the other rooms alone exactly if no unmarked one shares an id it deletes. */
  lemma OtherRoomsUntouchedExactly(db: Db, room: nat, items: seq<Item>, sync: SyncState)
    ensures (forall k :: k in db.rows && k.room != room ==> Committed(db, room, items, sync).rows[k] == db.rows[k])
            <==> forall k :: k in db.rows && k.room != room && k.id in ToDelete(items) ==> db.rows[k].deleted
  {
    var rows := Committed(db, room, items, sync).rows;
    if forall k :: k in db.rows && k.room != room ==> rows[k] == db.rows[k] {
      forall k | k in db.rows && k.room != room && k.id in ToDelete(items)
        ensures db.rows[k].deleted
      {
        assert rows[k].deleted;
      }
    }
  }

  /** Once stored, a message's text stays as it is: an edit never reaches it. */
  lemma {:induction false} StoredTextIsFinal(s: State, events: seq<Event>, id: nat)
    requires Key(s.room, id) in s.client.db.rows
    ensures var t := Run(s, events);
            t.room == s.room && Key(s.room, id) in t.client.db.rows
            && t.client.db.rows[Key(s.room, id)].text == s.client.db.rows[Key(s.room, id)].text
    decreases |events|
  {
    if events != [] {
      StoredTextIsFinal(if Enabled(s, events[0]) then Step(s, events[0]) else s, events[1..], id);
    }
  }

  // ---------- what callers see ----------

  /** The ids of the messages that decode. */
  function Decodable(items: seq<Item>): set<nat> {
    set x | x in items && x.body.Content? :: x.id
  }

  lemma {:induction false} SavesCount(items: seq<Item>)
    requires DistinctIds(items)
    ensures |ToSave(items)| == |Decodable(items)|
  {
    if items != [] {
      var most, last := items[..|items| - 1], items[|items| - 1];
      assert items == most + [last];
      SavesCount(most);
      assert last.id !in Decodable(most);
      assert Decodable(items) == Decodable(most) + if last.body.Content? then {last.id} else {};
    }
  }

  /**
   A load reports a failed request, a failed transaction if there was anything to save or to mark,
   and otherwise the number of messages that decode.
   */
  lemma ReportIsExact(items: seq<Item>, commits: bool, e: string)
    requires DistinctIds(items)
    ensures Reported(Err(e), commits) == Err(e)
    ensures var saved := Reported(Ok(items), commits);
            && (saved.Ok? <==> commits || forall x :: x in items ==> x.body.Garbage?)
            && (saved.Ok? ==> saved.value == |Decodable(items)|)
  {
    SavesCount(items);
    IdleExactly(items);
  }

  lemma IdleExactly(items: seq<Item>)
    ensures Idle(items) <==> forall x :: x in items ==> x.body.Garbage?
  {
    HeadIsSaved(items);
    if x :| x in items && x.body.Content? {
      assert x in ToSave(items);
    }
    if x :| x in items && x.body.Gone? {
      assert x.id in ToDelete(items);
    }
    if ToDelete(items) != [] {
      assert ToDelete(items)[0] in ToDelete(items);
    }
  }

  /** Earlier messages are taken to be there, in memory and in the table. */
  ghost predicate ClaimsEarlier(s: State) {
    && (s.client.sync.Some? ==> s.client.sync.value.hasEarlier)
    && (Stored(s.client.db, s.room).Some? ==> Stored(s.client.db, s.room).value.hasEarlier)
  }

  lemma {:induction false} RunClaimsEarlier(s: State, events: seq<Event>)
    requires ClaimsEarlier(s)
    ensures ClaimsEarlier(Run(s, events))
    decreases |events|
  {
    if events != [] {
      RunClaimsEarlier(if Enabled(s, events[0]) then Step(s, events[0]) else s, events[1..]);
    }
  }

  /** A load-earlier command is never turned away: in every reachable state the worker can ask before its cursor. */
  lemma EarlierIsNeverRefused(room: nat, others: Rows, events: seq<Event>)
    ensures var sync := Run(Initial(room, others), events).client.sync;
            sync.Some? ==> CanAsk(sync, Before(sync.value.earliest))
  {
    RunClaimsEarlier(Initial(room, others), events);
  }

  /** A worker that is started again stands where the last committed response has left it. */
  lemma RestartResumes(s: State)
    requires s.asked.Some? && exists x :: x in s.asked.value.items && !x.body.Garbage?
    ensures var t := Step(s, Response(true));
            t.client.sync.Some? && Step(t, Restart).client == t.client
  {
    IdleExactly(s.asked.value.items);
  }
}
