/**
 What a batch of community messages does to the sync cursors and to the message table
 (worker/community/download_community_messages.rs, db/messages.rs, db/message_sync_state.rs).
 */
module CommunityStore {
  import opened Wrappers

  const LOAD_LIMIT: nat := 256

  /** A message body that decodes, one that does not, or the mark of a deleted message. */
  datatype Body = Content(text: nat) | Garbage | Gone

  datatype Item = Item(id: nat, seqno: nat, body: Body)

  datatype SyncState = SyncState(hasEarlier: bool, earliest: nat, latest: nat)

  /** The unique index of the message table. */
  datatype Key = Key(room: nat, id: nat)

  datatype Row = Row(text: nat, deleted: bool)

  type Rows = map<Key, Row>

  /** The two tables. */
  datatype Db = Db(rows: Rows, syncStates: map<nat, SyncState>)

  // ---------- sorting a response ----------

  /** The items whose content decodes, in order. */
  function ToSave(items: seq<Item>): (saves: seq<Item>)
    ensures forall x :: x in saves <==> x in items && x.body.Content?
  {
    if items == [] then []
    else
      var last := items[|items| - 1];
      assert items == items[..|items| - 1] + [last];
      ToSave(items[..|items| - 1]) + if last.body.Content? then [last] else []
  }

  /** The ids of the deleted items. */
  function ToDelete(items: seq<Item>): (ids: seq<nat>)
    ensures forall id :: id in ids <==> exists x :: x in items && x.body.Gone? && x.id == id
  {
    if items == [] then []
    else
      var last := items[|items| - 1];
      assert items == items[..|items| - 1] + [last];
      ToDelete(items[..|items| - 1]) + if last.body.Gone? then [last.id] else []
  }

  // ---------- the cursors ----------

  function MinId(saves: seq<Item>): nat
    requires saves != []
  {
    var last := saves[|saves| - 1];
    if |saves| == 1 then last.id
    else
      var m := MinId(saves[..|saves| - 1]);
      if last.id < m then last.id else m
  }

  function MaxSeq(saves: seq<Item>): nat
    requires saves != []
  {
    var last := saves[|saves| - 1];
    if |saves| == 1 then last.seqno
    else
      var m := MaxSeq(saves[..|saves| - 1]);
      if last.seqno > m then last.seqno else m
  }

  lemma {:induction false} MinIdIsLeast(saves: seq<Item>) returns (x: Item)
    requires saves != []
    ensures x in saves && x.id == MinId(saves)
    ensures forall y :: y in saves ==> MinId(saves) <= y.id
  {
    x := saves[|saves| - 1];
    assert saves == saves[..|saves| - 1] + [x];
    if |saves| > 1 {
      var other := MinIdIsLeast(saves[..|saves| - 1]);
      x := if x.id < other.id then x else other;
    }
  }

  lemma {:induction false} MaxSeqIsGreatest(saves: seq<Item>) returns (x: Item)
    requires saves != []
    ensures x in saves && x.seqno == MaxSeq(saves)
    ensures forall y :: y in saves ==> y.seqno <= MaxSeq(saves)
  {
    x := saves[|saves| - 1];
    assert saves == saves[..|saves| - 1] + [x];
    if |saves| > 1 {
      var other := MaxSeqIsGreatest(saves[..|saves| - 1]);
      x := if x.seqno > other.seqno then x else other;
    }
  }

  /** The cursors move only over items that decode. */
  function Moved(sync: SyncState, saves: seq<Item>, updateEarliest: bool, updateLatest: bool): SyncState {
    if saves == [] then sync
    else
      SyncState(sync.hasEarlier || updateEarliest,
                if updateEarliest then MinId(saves) else sync.earliest,
                if updateLatest then MaxSeq(saves) else sync.latest)
  }

  // ---------- the message table ----------

  /** `INSERT OR IGNORE`: a row that is there stays as it is. */
  function InsertOrIgnore(rows: Rows, k: Key, row: Row): Rows {
    if k in rows then rows else rows[k := row]
  }

  function InsertAll(rows: Rows, room: nat, saves: seq<Item>): (r: Rows)
    requires forall x :: x in saves ==> x.body.Content?
    ensures forall k :: k in rows ==> k in r && r[k] == rows[k]
    ensures forall k :: k in r && k !in rows ==>
              k.room == room && exists x :: x in saves && x.id == k.id && r[k] == Row(x.body.text, false)
    ensures forall x :: x in saves ==> Key(room, x.id) in r
  {
    if saves == [] then rows
    else
      var last := saves[|saves| - 1];
      assert saves == saves[..|saves| - 1] + [last];
      InsertOrIgnore(InsertAll(rows, room, saves[..|saves| - 1]), Key(room, last.id), Row(last.body.text, false))
  }

  /** The update looks at `server_id` alone: rows of every room are marked. */
  function MarkDeleted(rows: Rows, ids: seq<nat>): Rows {
    map k | k in rows :: if k.id in ids then rows[k].(deleted := true) else rows[k]
  }

  /** The transaction. */
  function Committed(db: Db, room: nat, items: seq<Item>, sync: SyncState): Db {
    Db(MarkDeleted(InsertAll(db.rows, room, ToSave(items)), ToDelete(items)), db.syncStates[room := sync])
  }

  class Repository {
    var messages: Rows
    var syncStates: map<nat, SyncState>

    ghost function View(): Db
      reads this
    {
      Db(messages, syncStates)
    }

    method SaveMessages(room: nat, saves: seq<Item>)
      requires forall x :: x in saves ==> x.body.Content?
      modifies this`messages
      ensures messages == InsertAll(old(messages), room, saves)
    {
      for i := 0 to |saves|
        invariant messages == InsertAll(old(messages), room, saves[..i])
      {
        assert saves[..i + 1][..i] == saves[..i];
        assert saves[i] in saves;
        if Key(room, saves[i].id) !in messages {
          messages := messages[Key(room, saves[i].id) := Row(saves[i].body.text, false)];
        }
      }
      assert saves[..|saves|] == saves;
    }

    /**
     One call of `save_messages_and_sync_state`. The cursors move before the transaction runs, and
     keep their new place when it fails.
     */
    method SaveMessagesAndSyncState(room: nat, messages: seq<Item>, sync: SyncState, updateEarliest: bool,
                                    updateLatest: bool, commits: bool)
      returns (saved: Result<nat, string>, sync': SyncState)
      modifies this
      ensures sync' == Moved(sync, ToSave(messages), updateEarliest, updateLatest)
      ensures var idle := ToSave(messages) == [] && ToDelete(messages) == [];
              View() == (if commits && !idle then Committed(old(View()), room, messages, sync') else old(View()))
              && saved == if commits || idle then Ok(|ToSave(messages)|) else Err("Saving messages")
    {
      var saveMessages: seq<Item> := [];
      var deleteMessages: seq<nat> := [];
      for i := 0 to |messages|
        invariant saveMessages == ToSave(messages[..i])
        invariant deleteMessages == ToDelete(messages[..i])
      {
        assert messages[..i + 1][..i] == messages[..i];
        match messages[i].body {
          case Content(_) => saveMessages := saveMessages + [messages[i]];
          case Gone => deleteMessages := deleteMessages + [messages[i].id];
          case Garbage =>
        }
      }
      assert messages[..|messages|] == messages;

      sync' := sync;
      if updateEarliest && saveMessages != [] {
        var earliest := EarliestId(saveMessages);
        sync' := sync'.(earliest := earliest, hasEarlier := true);
      }
      if updateLatest && saveMessages != [] {
        var latest := LatestSeq(saveMessages);
        sync' := sync'.(latest := latest);
      }

      if saveMessages == [] && deleteMessages == [] {
        return Ok(0), sync';
      }
      if !commits {
        return Err("Saving messages"), sync';
      }
      SaveMessages(room, saveMessages);
      this.messages := MarkDeleted(this.messages, deleteMessages);
      syncStates := syncStates[room := sync'];
      saved := Ok(|saveMessages|);
    }
  }

  method EarliestId(saves: seq<Item>) returns (m: nat)
    requires saves != []
    ensures m == MinId(saves)
  {
    m := saves[0].id;
    assert saves[..1] == [saves[0]];
    for i := 1 to |saves|
      invariant m == MinId(saves[..i])
    {
      assert saves[..i + 1][..i] == saves[..i];
      if saves[i].id < m {
        m := saves[i].id;
      }
    }
    assert saves[..|saves|] == saves;
  }

  method LatestSeq(saves: seq<Item>) returns (m: nat)
    requires saves != []
    ensures m == MaxSeq(saves)
  {
    m := saves[0].seqno;
    assert saves[..1] == [saves[0]];
    for i := 1 to |saves|
      invariant m == MaxSeq(saves[..i])
    {
      assert saves[..i + 1][..i] == saves[..i];
      if saves[i].seqno > m {
        m := saves[i].seqno;
      }
    }
    assert saves[..|saves|] == saves;
  }
}
