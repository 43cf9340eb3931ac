/**
 The tables that mirror the configs (db/config.rs): one statement deletes the rows no longer in the
 config, then one upsert follows for each entry.
 */
module ConfigRows {
  import opened Wrappers

  datatype TableKind = Contacts | UserGroups | GroupMembers | ConvoInfo

  type Id = nat
  type Data = nat

  /** The `type` column. */
  datatype EntryType = OneToOne | Group | Community | Legacy

  /** An entry of a config; its id may fail to parse. */
  datatype Entry = Entry(id: Option<Id>, entryType: EntryType, data: Data)

  /** The primary key: contacts use the id alone, members a group and an id, the others an id and a type. */
  datatype Key = Key(scope: Option<Id>, id: Id, entryType: EntryType)

  type Rows = map<Key, Data>

  /** The group a table is saved for; only members have one. */
  datatype Target = Target(table: TableKind, group: Option<Id>) {
    predicate Usable() {
      table.GroupMembers? <==> group.Some?
    }

    function KeyOf(id: Id, entryType: EntryType): Key {
      match table
      case Contacts => Key(None, id, OneToOne)
      case GroupMembers => Key(group, id, OneToOne)
      case _ => Key(None, id, entryType)
    }

    /** The member pass looks only at the rows of its group. */
    predicate Covers(key: Key) {
      table.GroupMembers? ==> key.scope == group
    }

    /** Legacy groups are not written, and have no id to keep a row by. */
    predicate Skips(e: Entry) {
      table.UserGroups? && e.entryType.Legacy?
    }

    /** Does the list of what to keep name the row? */
    predicate Keeps(e: Entry, key: Key) {
      !Skips(e)
      && match e.id
         case Some(id) => KeyOf(id, e.entryType) == key
         // NOT IN with a NULL in the list is not true: rows of that type are not deleted
         case None => table.ConvoInfo? && e.entryType == key.entryType
    }

    predicate Invalid(e: Entry) {
      !Skips(e) && e.id.None?
    }
  }

  // ---------- the two passes ----------

  function DeleteStale(t: Target, rows: Rows, entries: seq<Entry>): Rows {
    map key | key in rows && (t.Covers(key) ==> exists e :: e in entries && t.Keeps(e, key)) :: rows[key]
  }

  function Upsert(t: Target, rows: Rows, e: Entry): Rows {
    if t.Skips(e) || e.id.None? then rows else rows[t.KeyOf(e.id.value, e.entryType) := e.data]
  }

  function UpsertAll(t: Target, rows: Rows, entries: seq<Entry>): Rows {
    if entries == [] then rows
    else Upsert(t, UpsertAll(t, rows, entries[..|entries| - 1]), entries[|entries| - 1])
  }

  /** How many entries the loop gets through. */
  function ValidPrefix(t: Target, entries: seq<Entry>): (n: nat)
    ensures n <= |entries|
    ensures forall i :: 0 <= i < n ==> !t.Invalid(entries[i])
    ensures n < |entries| ==> t.Invalid(entries[n])
  {
    if entries == [] || t.Invalid(entries[0]) then 0 else 1 + ValidPrefix(t, entries[1..])
  }

  /** Both passes. They do not run in a transaction, so what an early failure leaves behind stays. */
  function Saved(t: Target, rows: Rows, entries: seq<Entry>): Rows {
    UpsertAll(t, DeleteStale(t, rows, entries), entries[..ValidPrefix(t, entries)])
  }

  class ConfigDatabase {
    var contacts: Rows
    var userGroups: Rows
    var groupMembers: Rows
    var convoInfo: Rows

    method SaveContacts(entries: seq<Entry>) returns (r: Result<(), string>)
      modifies this`contacts
      ensures var t := Target(Contacts, None);
              contacts == Saved(t, old(contacts), entries) && (r.Ok? <==> ValidPrefix(t, entries) == |entries|)
    {
      hide ValidPrefix;
      ghost var t := Target(Contacts, None);
      contacts := map key | key in contacts
                    && (exists e :: e in entries && e.id == Some(key.id) && key == Key(None, key.id, OneToOne))
                    :: contacts[key];
      assert contacts == DeleteStale(t, old(contacts), entries);
      for i := 0 to |entries|
        invariant contacts == UpsertAll(t, DeleteStale(t, old(contacts), entries), entries[..i])
        invariant i <= ValidPrefix(t, entries)
      {
        assert entries[..i + 1][..i] == entries[..i];
        if entries[i].id.None? {
          return Err("Invalid session ID");
        }
        contacts := contacts[Key(None, entries[i].id.value, OneToOne) := entries[i].data];
      }
      return Ok(());
    }

    method SaveUserGroups(entries: seq<Entry>) returns (r: Result<(), string>)
      modifies this`userGroups
      ensures var t := Target(UserGroups, None);
              userGroups == Saved(t, old(userGroups), entries) && (r.Ok? <==> ValidPrefix(t, entries) == |entries|)
    {
      hide ValidPrefix;
      ghost var t := Target(UserGroups, None);
      userGroups := map key | key in userGroups
                      && (exists e :: e in entries && !e.entryType.Legacy? && e.id.Some?
                                      && key == Key(None, e.id.value, e.entryType))
                      :: userGroups[key];
      assert userGroups == DeleteStale(t, old(userGroups), entries);
      for i := 0 to |entries|
        invariant userGroups == UpsertAll(t, DeleteStale(t, old(userGroups), entries), entries[..i])
        invariant i <= ValidPrefix(t, entries)
      {
        assert entries[..i + 1][..i] == entries[..i];
        if !entries[i].entryType.Legacy? {
          if entries[i].id.None? {
            return Err("Invalid group ID");
          }
          userGroups := userGroups[Key(None, entries[i].id.value, entries[i].entryType) := entries[i].data];
        }
      }
      return Ok(());
    }

    method SaveConvoInfo(entries: seq<Entry>) returns (r: Result<(), string>)
      modifies this`convoInfo
      ensures var t := Target(ConvoInfo, None);
              convoInfo == Saved(t, old(convoInfo), entries) && (r.Ok? <==> ValidPrefix(t, entries) == |entries|)
    {
      hide ValidPrefix;
      ghost var t := Target(ConvoInfo, None);
      convoInfo := map key | key in convoInfo
                     && (exists e :: e in entries && e.entryType == key.entryType
                                     && (e.id.None? || key == Key(None, e.id.value, e.entryType)))
                     :: convoInfo[key];
      assert convoInfo == DeleteStale(t, old(convoInfo), entries);
      for i := 0 to |entries|
        invariant convoInfo == UpsertAll(t, DeleteStale(t, old(convoInfo), entries), entries[..i])
        invariant i <= ValidPrefix(t, entries)
      {
        assert entries[..i + 1][..i] == entries[..i];
        if entries[i].id.None? {
          return Err("Invalid ID");
        }
        convoInfo := convoInfo[Key(None, entries[i].id.value, entries[i].entryType) := entries[i].data];
      }
      return Ok(());
    }

    /** Members have an id each; the group they are saved for may be missing. */
    method SaveGroupMembers(group: Option<Id>, entries: seq<Entry>) returns (r: Result<(), string>)
      requires forall e :: e in entries ==> e.id.Some?
      modifies this`groupMembers
      ensures r.Ok? <==> group.Some?
      ensures groupMembers == if group.None? then old(groupMembers)
                              else Saved(Target(GroupMembers, group), old(groupMembers), entries)
    {
      if group.None? {
        return Err("Missing group ID");
      }
      hide ValidPrefix;
      ghost var t := Target(GroupMembers, group);
      groupMembers := map key | key in groupMembers
                        && (key.scope == group ==> exists e :: e in entries && key == Key(group, e.id.value, OneToOne))
                        :: groupMembers[key];
      assert groupMembers == DeleteStale(t, old(groupMembers), entries);
      for i := 0 to |entries|
        invariant groupMembers == UpsertAll(t, DeleteStale(t, old(groupMembers), entries), entries[..i])
        invariant i <= ValidPrefix(t, entries)
      {
        assert entries[..i + 1][..i] == entries[..i];
        assert entries[i] in entries;
        groupMembers := groupMembers[Key(group, entries[i].id.value, OneToOne) := entries[i].data];
      }
      return Ok(());
    }
  }

  // ---------- what the table holds afterwards ----------

  /** The entry is written to the row. */
  predicate Writes(t: Target, e: Entry, key: Key) {
    !t.Skips(e) && e.id.Some? && t.KeyOf(e.id.value, e.entryType) == key
  }

  /** The `i`-th of the first `n` entries is the last of them that is written to the row. */
  ghost predicate LastWrite(t: Target, entries: seq<Entry>, n: nat, key: Key, i: int)
    requires n <= |entries|
  {
    0 <= i < n && Writes(t, entries[i], key) && forall j :: i < j < n ==> !Writes(t, entries[j], key)
  }

  ghost predicate NoWrite(t: Target, entries: seq<Entry>, n: nat, key: Key)
    requires n <= |entries|
  {
    forall j :: 0 <= j < n ==> !Writes(t, entries[j], key)
  }

  lemma UpsertAt(t: Target, rows: Rows, e: Entry, key: Key)
    ensures var r := Upsert(t, rows, e);
            if Writes(t, e, key) then key in r && r[key] == e.data
            else (key in r <==> key in rows) && (key in r ==> r[key] == rows[key])
  {
  }

  /** A row that no entry is written to stays. */
  lemma {:induction false} NotWritten(t: Target, rows: Rows, entries: seq<Entry>, n: nat, key: Key)
    requires n <= |entries| && NoWrite(t, entries, n, key)
    ensures var r := UpsertAll(t, rows, entries[..n]);
            (key in r <==> key in rows) && (key in r ==> r[key] == rows[key])
  {
    if n > 0 {
      assert entries[..n][..n - 1] == entries[..n - 1];
      NotWritten(t, rows, entries, n - 1, key);
      UpsertAt(t, UpsertAll(t, rows, entries[..n - 1]), entries[n - 1], key);
    }
  }

  /** Of several entries for a row the last one wins. */
  lemma {:induction false} LastWins(t: Target, rows: Rows, entries: seq<Entry>, n: nat, key: Key, i: nat)
    requires n <= |entries| && LastWrite(t, entries, n, key, i)
    ensures var r := UpsertAll(t, rows, entries[..n]); key in r && r[key] == entries[i].data
  {
    hide Upsert, Writes;
    assert entries[..n][..n - 1] == entries[..n - 1];
    UpsertAt(t, UpsertAll(t, rows, entries[..n - 1]), entries[n - 1], key);
    if i < n - 1 {
      assert LastWrite(t, entries, n - 1, key, i);
      LastWins(t, rows, entries, n - 1, key, i);
    }
  }

  lemma {:induction false} SomeLastWrite(t: Target, entries: seq<Entry>, n: nat, key: Key) returns (i: nat)
    requires n <= |entries| && !NoWrite(t, entries, n, key)
    ensures LastWrite(t, entries, n, key, i)
  {
    if Writes(t, entries[n - 1], key) {
      i := n - 1;
    } else {
      i := SomeLastWrite(t, entries, n - 1, key);
    }
  }

  /**
   Whatever the entries, and wherever the loop stops: a row holds the last entry written to it; one
   not written stays if it is kept, or is out of the pass's reach, and is gone otherwise.
   */
  lemma SavedAt(t: Target, rows: Rows, entries: seq<Entry>, key: Key)
    ensures var n := ValidPrefix(t, entries);
            var r := Saved(t, rows, entries);
            && (forall i :: LastWrite(t, entries, n, key, i) ==> key in r && r[key] == entries[i].data)
            && (NoWrite(t, entries, n, key) ==>
                  (key in r <==> key in rows && (t.Covers(key) ==> exists e :: e in entries && t.Keeps(e, key)))
                  && (key in r ==> r[key] == rows[key]))
  {
    var n, kept := ValidPrefix(t, entries), DeleteStale(t, rows, entries);
    if NoWrite(t, entries, n, key) {
      NotWritten(t, kept, entries, n, key);
    }
    forall i | LastWrite(t, entries, n, key, i)
      ensures key in UpsertAll(t, kept, entries[..n]) && UpsertAll(t, kept, entries[..n])[key] == entries[i].data
    {
      LastWins(t, kept, entries, n, key, i);
    }
  }

  predicate AllValid(t: Target, entries: seq<Entry>) {
    forall e :: e in entries ==> !t.Invalid(e)
  }

  /** The loop gets through exactly if every entry it writes has an id. */
  lemma {:induction false} SucceedsExactly(t: Target, entries: seq<Entry>)
    ensures ValidPrefix(t, entries) == |entries| <==> AllValid(t, entries)
  {
    var n := ValidPrefix(t, entries);
    if n < |entries| {
      assert entries[n] in entries;
    }
  }

  /**
   When all ids are valid, the rows in reach are exactly those of the config, whatever they were
   before; the others are as they were.
   */
  lemma SavedReplacesAll(t: Target, rows: Rows, entries: seq<Entry>, key: Key)
    requires AllValid(t, entries) && t.Usable()
    ensures var r := Saved(t, rows, entries);
            && (t.Covers(key) ==> (key in r <==> exists i :: LastWrite(t, entries, |entries|, key, i)))
            && (forall i :: LastWrite(t, entries, |entries|, key, i) ==> key in r && r[key] == entries[i].data)
            && (!t.Covers(key) ==> (key in r <==> key in rows) && (key in r ==> r[key] == rows[key]))
  {
    SucceedsExactly(t, entries);
    SavedAt(t, rows, entries, key);
    if NoWrite(t, entries, |entries|, key) {
      forall e | e in entries
        ensures !t.Keeps(e, key)
      {
        var i :| 0 <= i < |entries| && entries[i] == e;
        assert !Writes(t, entries[i], key);
      }
    } else {
      var i := SomeLastWrite(t, entries, |entries|, key);
    }
  }

  /** So the table afterwards does not depend on the rows in reach before: saving again changes nothing. */
  lemma SavedTwice(t: Target, rows: Rows, entries: seq<Entry>)
    requires AllValid(t, entries) && t.Usable()
    ensures Saved(t, Saved(t, rows, entries), entries) == Saved(t, rows, entries)
  {
    var r := Saved(t, rows, entries);
    forall key: Key
      ensures key in Saved(t, r, entries) <==> key in r
      ensures key in r ==> Saved(t, r, entries)[key] == r[key]
    {
      SavedReplacesAll(t, rows, entries, key);
      SavedReplacesAll(t, r, entries, key);
      if !NoWrite(t, entries, |entries|, key) {
        var i := SomeLastWrite(t, entries, |entries|, key);
      }
    }
  }

  /** One conversation whose id does not parse keeps every row of its type, however stale. */
  lemma InvalidIdKeepsItsType(rows: Rows, entries: seq<Entry>, e: Entry, key: Key)
    requires e in entries && e.id.None? && key in rows && key.entryType == e.entryType
    ensures key in Saved(Target(ConvoInfo, None), rows, entries)
  {
    var t := Target(ConvoInfo, None);
    SavedAt(t, rows, entries, key);
    if !NoWrite(t, entries, ValidPrefix(t, entries), key) {
      var i := SomeLastWrite(t, entries, ValidPrefix(t, entries), key);
    }
  }

  // ---------- table by table ----------

  /** The entry is the last one of its id, and, where types tell rows apart, of its type. */
  ghost predicate LastEntry(entries: seq<Entry>, i: int, id: Id, entryType: EntryType, typed: bool) {
    && 0 <= i < |entries| && IsFor(entries[i], id, entryType, typed)
    && forall j :: i < j < |entries| ==> !IsFor(entries[j], id, entryType, typed)
  }

  predicate IsFor(e: Entry, id: Id, entryType: EntryType, typed: bool) {
    e.id == Some(id) && (typed ==> e.entryType == entryType)
  }

  ghost predicate HasEntry(entries: seq<Entry>, id: Id, entryType: EntryType, typed: bool) {
    exists i :: LastEntry(entries, i, id, entryType, typed)
  }

  /** The row holds what the last entry for it says. */
  ghost predicate HoldsLast(rows: Rows, entries: seq<Entry>, key: Key, typed: bool)
    requires key in rows
  {
    forall i :: LastEntry(entries, i, key.id, key.entryType, typed) ==> rows[key] == entries[i].data
  }

  lemma LastWriteIsLastEntry(t: Target, entries: seq<Entry>, key: Key, typed: bool, i: int)
    requires forall e :: e in entries ==> (Writes(t, e, key) <==> IsFor(e, key.id, key.entryType, typed))
    ensures LastWrite(t, entries, |entries|, key, i) <==> LastEntry(entries, i, key.id, key.entryType, typed)
  {
    assert forall j :: 0 <= j < |entries| ==> entries[j] in entries;
  }

  lemma TableOf(t: Target, rows: Rows, entries: seq<Entry>, key: Key, typed: bool)
    requires AllValid(t, entries) && t.Usable() && t.Covers(key)
    requires forall e :: e in entries ==> (Writes(t, e, key) <==> IsFor(e, key.id, key.entryType, typed))
    ensures var r := Saved(t, rows, entries);
            (key in r <==> HasEntry(entries, key.id, key.entryType, typed))
            && (key in r ==> HoldsLast(r, entries, key, typed))
  {
    hide LastWrite, LastEntry, Saved, Writes, IsFor;
    SavedReplacesAll(t, rows, entries, key);
    forall i
      ensures LastWrite(t, entries, |entries|, key, i) <==> LastEntry(entries, i, key.id, key.entryType, typed)
    {
      LastWriteIsLastEntry(t, entries, key, typed, i);
    }
  }

  /** Contacts: one row for each id, whatever was there before. */
  lemma ContactsTable(rows: Rows, entries: seq<Entry>, key: Key)
    requires (forall e :: e in entries ==> e.id.Some?) && key.scope.None? && key.entryType.OneToOne?
    ensures var r := Saved(Target(Contacts, None), rows, entries);
            && (key in r <==> HasEntry(entries, key.id, OneToOne, false))
            && (key in r ==> HoldsLast(r, entries, key, false))
  {
    TableOf(Target(Contacts, None), rows, entries, key, false);
  }

  /** User groups: one row for each group and community, by id and type, and none for a legacy group. */
  lemma UserGroupsTable(rows: Rows, entries: seq<Entry>, key: Key)
    requires (forall e :: e in entries ==> e.id.Some? || e.entryType.Legacy?) && key.scope.None?
    ensures var r := Saved(Target(UserGroups, None), rows, entries);
            && (key in r <==> !key.entryType.Legacy? && HasEntry(entries, key.id, key.entryType, true))
            && (key in r ==> HoldsLast(r, entries, key, true))
  {
    var t := Target(UserGroups, None);
    if key.entryType.Legacy? {
      SavedReplacesAll(t, rows, entries, key);
    } else {
      TableOf(t, rows, entries, key, true);
    }
  }

  /** Conversations: one row for each id and type, legacy groups included. */
  lemma ConvoInfoTable(rows: Rows, entries: seq<Entry>, key: Key)
    requires (forall e :: e in entries ==> e.id.Some?) && key.scope.None?
    ensures var r := Saved(Target(ConvoInfo, None), rows, entries);
            && (key in r <==> HasEntry(entries, key.id, key.entryType, true))
            && (key in r ==> HoldsLast(r, entries, key, true))
  {
    TableOf(Target(ConvoInfo, None), rows, entries, key, true);
  }

  /** Members: one row for each member of the group; the rows of other groups are as they were. */
  lemma GroupMembersTable(rows: Rows, group: Id, entries: seq<Entry>, key: Key)
    requires (forall e :: e in entries ==> e.id.Some?) && key.entryType.OneToOne?
    ensures var r := Saved(Target(GroupMembers, Some(group)), rows, entries);
            if key.scope == Some(group) then
              && (key in r <==> HasEntry(entries, key.id, OneToOne, false))
              && (key in r ==> HoldsLast(r, entries, key, false))
            else (key in r <==> key in rows) && (key in r ==> r[key] == rows[key])
  {
    var t := Target(GroupMembers, Some(group));
    if key.scope == Some(group) {
      TableOf(t, rows, entries, key, false);
    } else {
      SavedReplacesAll(t, rows, entries, key);
    }
  }

  /** A pass fails exactly at the first entry whose id does not parse, legacy groups aside. */
  lemma FailsExactly(table: TableKind, group: Option<Id>, entries: seq<Entry>)
    ensures ValidPrefix(Target(table, group), entries) == |entries| <==>
            forall e :: e in entries ==> e.id.Some? || (table.UserGroups? && e.entryType.Legacy?)
  {
    SucceedsExactly(Target(table, group), entries);
  }
}
