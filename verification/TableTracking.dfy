/**
 Which tables an operation touched, and who is told (utils/sqlite/reactive.rs): the update hook keeps
 a sorted buffer, an operation that succeeds announces it, and a watcher filters the announcements.
 The buffer is thread-local in the program and belongs to the operation that runs; here it is a
 field, and operations come one after the other.
 */
module TableTracking {

  type Table = string

  // ---------- the order of names ----------

  /** The order of strings: by the first character that differs, a prefix first. */
  predicate Less(a: Table, b: Table) {
    b != [] && (a == [] || a[0] < b[0] || (a[0] == b[0] && Less(a[1..], b[1..])))
  }

  lemma {:induction false} LessIsTotal(a: Table, b: Table)
    ensures a == b <==> !Less(a, b) && !Less(b, a)
    ensures !(Less(a, b) && Less(b, a))
  {
    if a != [] && b != [] && a[0] == b[0] {
      LessIsTotal(a[1..], b[1..]);
      assert a == [a[0]] + a[1..] && b == [b[0]] + b[1..];
    }
  }

  lemma {:induction false} LessIsTransitive(a: Table, b: Table, c: Table)
    requires Less(a, b) && Less(b, c)
    ensures Less(a, c)
  {
    if a != [] && a[0] == b[0] == c[0] {
      LessIsTransitive(a[1..], b[1..], c[1..]);
    }
  }

  /** Up to some place the names agree, and there one ends or has the smaller character. */
  lemma {:induction false} LessExactly(a: Table, b: Table)
    ensures Less(a, b) <==>
            exists k: nat :: k <= |a| && k < |b| && a[..k] == b[..k] && (k == |a| || a[k] < b[k])
  {
    if a != [] && b != [] && a[0] == b[0] {
      LessExactly(a[1..], b[1..]);
      if Less(a, b) {
        var k: nat :| k <= |a[1..]| && k < |b[1..]| && a[1..][..k] == b[1..][..k]
                      && (k == |a[1..]| || a[1..][k] < b[1..][k]);
        assert a[..k + 1] == [a[0]] + a[1..][..k] && b[..k + 1] == [b[0]] + b[1..][..k];
        assert k + 1 <= |a| && k + 1 < |b| && a[..k + 1] == b[..k + 1] && (k + 1 == |a| || a[k + 1] < b[k + 1]);
      }
      if k: nat :| k <= |a| && k < |b| && a[..k] == b[..k] && (k == |a| || a[k] < b[k]) {
        assert k > 0;
        assert a[1..][..k - 1] == a[..k][1..] && b[1..][..k - 1] == b[..k][1..];
      }
    } else if b != [] {
      assert a[..0] == b[..0];
      if k: nat :| k <= |a| && k < |b| && a[..k] == b[..k] && (k == |a| || a[k] < b[k]) {
        if k > 0 {
          assert a[..k][0] == b[..k][0];
        }
      }
    }
  }

  ghost predicate Ascending(s: seq<Table>) {
    forall i, j :: 0 <= i < j < |s| ==> Less(s[i], s[j])
  }

  function Tables(s: seq<Table>): set<Table> {
    set i | 0 <= i < |s| :: s[i]
  }

  // ---------- the hook ----------

  /** Sorted insertion that leaves a name alone that is there. */
  function Touch(s: seq<Table>, t: Table): seq<Table> {
    if s == [] then [t]
    else if s[0] == t then s
    else if Less(t, s[0]) then [t] + s
    else [s[0]] + Touch(s[1..], t)
  }

  method BinarySearch(s: seq<Table>, key: Table) returns (found: bool, i: nat)
    requires Ascending(s)
    ensures i <= |s| && (found ==> i < |s| && s[i] == key)
    ensures !found ==> (forall k :: 0 <= k < i ==> Less(s[k], key)) && forall k :: i <= k < |s| ==> Less(key, s[k])
  {
    var low, high := 0, |s|;
    while low < high
      invariant low <= high <= |s|
      invariant forall k :: 0 <= k < low ==> Less(s[k], key)
      invariant forall k :: high <= k < |s| ==> Less(key, s[k])
    {
      var mid := (low + high) / 2;
      LessIsTotal(s[mid], key);
      if s[mid] == key {
        return true, mid;
      } else if Less(s[mid], key) {
        forall k | 0 <= k < mid
          ensures Less(s[k], key)
        {
          LessIsTransitive(s[k], s[mid], key);
        }
        low := mid + 1;
      } else {
        forall k | mid < k < |s|
          ensures Less(key, s[k])
        {
          LessIsTransitive(key, s[mid], s[k]);
        }
        high := mid;
      }
    }
    return false, low;
  }

  lemma {:induction false} TouchMissing(s: seq<Table>, t: Table, i: nat)
    requires i <= |s| && (forall k :: 0 <= k < i ==> Less(s[k], t)) && forall k :: i <= k < |s| ==> Less(t, s[k])
    ensures Touch(s, t) == s[..i] + [t] + s[i..]
  {
    if i > 0 {
      LessIsTotal(s[0], t);
      TouchMissing(s[1..], t, i - 1);
      assert s[..i] == [s[0]] + s[1..][..i - 1] && s[1..][i - 1..] == s[i..];
    } else if s != [] {
      LessIsTotal(t, s[0]);
    }
  }

  lemma {:induction false} TouchFound(s: seq<Table>, t: Table, i: nat)
    requires Ascending(s) && i < |s| && s[i] == t
    ensures Touch(s, t) == s
  {
    if i > 0 {
      LessIsTotal(s[0], t);
      TouchFound(s[1..], t, i - 1);
    }
  }

  lemma Cons(h: Table, s: seq<Table>)
    ensures Tables([h] + s) == {h} + Tables(s)
    ensures Ascending(s) && (forall k :: 0 <= k < |s| ==> Less(h, s[k])) ==> Ascending([h] + s)
  {
    var r := [h] + s;
    assert forall k :: 0 <= k < |s| ==> s[k] == r[k + 1];
    forall x | x in {h} + Tables(s)
      ensures x in Tables(r)
    {
      if x in Tables(s) {
        var k :| 0 <= k < |s| && s[k] == x;
        assert r[k + 1] == x;
      } else {
        assert r[0] == x;
      }
    }
  }

  lemma HeadIsIn(s: seq<Table>)
    ensures s != [] ==> s[0] in Tables(s)
  {
  }

  lemma Uncons(s: seq<Table>)
    requires Ascending(s) && s != []
    ensures Ascending(s[1..]) && Tables(s) == {s[0]} + Tables(s[1..]) && s[0] !in Tables(s[1..])
    ensures forall x :: x in Tables(s[1..]) ==> Less(s[0], x)
  {
    assert s == [s[0]] + s[1..];
    Cons(s[0], s[1..]);
    forall x | x in Tables(s[1..])
      ensures Less(s[0], x) && x != s[0]
    {
      LessIsTotal(s[0], x);
    }
  }

  /** The buffer stays sorted without repetition, and gains the table touched. */
  lemma {:induction false} TouchKeeps(s: seq<Table>, t: Table)
    requires Ascending(s)
    ensures Ascending(Touch(s, t)) && Tables(Touch(s, t)) == Tables(s) + {t}
  {
    if s == [] {
      assert Tables([t]) == {t};
      return;
    }
    Uncons(s);
    LessIsTotal(s[0], t);
    if Less(t, s[0]) {
      forall k | 0 <= k < |s|
        ensures Less(t, s[k])
      {
        if k > 0 {
          LessIsTransitive(t, s[0], s[k]);
        }
      }
      Cons(t, s);
    } else if s[0] != t {
      var rest := Touch(s[1..], t);
      TouchKeeps(s[1..], t);
      forall k | 0 <= k < |rest|
        ensures Less(s[0], rest[k])
      {
        assert rest[k] in Tables(rest);
      }
      Cons(s[0], rest);
    }
  }

  /** A sorted buffer is determined by its tables. */
  lemma {:induction false} SortedIsUnique(a: seq<Table>, b: seq<Table>)
    requires Ascending(a) && Ascending(b) && Tables(a) == Tables(b)
    ensures a == b
  {
    HeadIsIn(a);
    HeadIsIn(b);
    if a != [] && b != [] {
      Uncons(a);
      Uncons(b);
      LessIsTotal(a[0], b[0]);
      assert a[0] == b[0];
      assert Tables(a[1..]) == Tables(a) - {a[0]} && Tables(b[1..]) == Tables(b) - {b[0]};
      SortedIsUnique(a[1..], b[1..]);
      assert a == [a[0]] + a[1..] && b == [b[0]] + b[1..];
    }
  }

  // ---------- operations ----------

  /** The tables an operation's writes touch, in order, and whether it succeeds. */
  datatype Operation = Operation(touched: seq<Table>, succeeds: bool)

  datatype State = State(buffer: seq<Table>, announced: seq<seq<Table>>)

  function TouchAll(s: seq<Table>, touched: seq<Table>): seq<Table> {
    if touched == [] then s else Touch(TouchAll(s, touched[..|touched| - 1]), touched[|touched| - 1])
  }

  /** The buffer is taken whether the operation succeeds or not. */
  function Perform(s: State, op: Operation): State {
    var changes := TouchAll(s.buffer, op.touched);
    State([], if op.succeeds && changes != [] then s.announced + [changes] else s.announced)
  }

  class ReactiveDatabaseManager {
    var trackingTableChanges: seq<Table>
    var announced: seq<seq<Table>>

    ghost function View(): State
      reads this
    {
      State(trackingTableChanges, announced)
    }

    constructor ()
      ensures View() == State([], [])
    {
      trackingTableChanges, announced := [], [];
    }

    method PreUpdateHook(table: Table)
      requires Ascending(trackingTableChanges)
      modifies this`trackingTableChanges
      ensures trackingTableChanges == Touch(old(trackingTableChanges), table)
      ensures Ascending(trackingTableChanges)
    {
      var found, insertion := BinarySearch(trackingTableChanges, table);
      TouchKeeps(trackingTableChanges, table);
      if found {
        TouchFound(trackingTableChanges, table, insertion);
      } else {
        TouchMissing(trackingTableChanges, table, insertion);
        trackingTableChanges := trackingTableChanges[..insertion] + [table] + trackingTableChanges[insertion..];
      }
    }

    method WithTableChangeTracking(op: Operation)
      requires Ascending(trackingTableChanges)
      modifies this
      ensures View() == Perform(old(View()), op)
    {
      for i := 0 to |op.touched|
        invariant Ascending(trackingTableChanges) && announced == old(announced)
        invariant trackingTableChanges == TouchAll(old(trackingTableChanges), op.touched[..i])
      {
        assert op.touched[..i + 1][..i] == op.touched[..i];
        PreUpdateHook(op.touched[i]);
      }
      assert op.touched[..|op.touched|] == op.touched;
      var changes := trackingTableChanges;
      trackingTableChanges := [];
      if op.succeeds && changes != [] {
        announced := announced + [changes];
      }
    }
  }

  /** `any` over the watched tables, a binary search in the announced ones for each. */
  method SortedSlicesIntercept(v1: seq<Table>, v2: seq<Table>) returns (r: bool)
    requires Ascending(v2)
    ensures r <==> Tables(v1) * Tables(v2) != {}
  {
    for i := 0 to |v1|
      invariant Tables(v1[..i]) * Tables(v2) == {}
    {
      assert v1[..i + 1] == v1[..i] + [v1[i]];
      var found, k := BinarySearch(v2, v1[i]);
      if found {
        assert v1[i] in Tables(v1) && v2[k] in Tables(v2);
        assert v1[i] in Tables(v1) * Tables(v2);
        return true;
      }
      NotFound(v2, v1[i], k);
      Last(v1[..i], v1[i]);
    }
    assert v1[..|v1|] == v1;
    return false;
  }

  lemma NotFound(s: seq<Table>, t: Table, i: nat)
    requires i <= |s| && (forall k :: 0 <= k < i ==> Less(s[k], t)) && forall k :: i <= k < |s| ==> Less(t, s[k])
    ensures t !in Tables(s)
  {
    forall k | 0 <= k < |s|
      ensures s[k] != t
    {
      LessIsTotal(s[k], t);
    }
  }

  lemma Last(s: seq<Table>, t: Table)
    ensures Tables(s + [t]) == Tables(s) + {t}
  {
    assert forall k :: 0 <= k < |s| ==> (s + [t])[k] == s[k];
    assert (s + [t])[|s|] == t;
  }

  // ---------- runs ----------

  lemma {:induction false} TouchAllKeeps(s: seq<Table>, touched: seq<Table>)
    requires Ascending(s)
    ensures Ascending(TouchAll(s, touched)) && Tables(TouchAll(s, touched)) == Tables(s) + Tables(touched)
  {
    if touched != [] {
      var n := |touched| - 1;
      assert touched == touched[..n] + [touched[n]];
      Last(touched[..n], touched[n]);
      TouchAllKeeps(s, touched[..n]);
      TouchKeeps(TouchAll(s, touched[..n]), touched[n]);
    }
  }

  /** What is announced does not depend on the order, or the number, of the writes. */
  lemma SameTablesSameAnnouncement(a: seq<Table>, b: seq<Table>)
    requires Tables(a) == Tables(b)
    ensures TouchAll([], a) == TouchAll([], b)
  {
    TouchAllKeeps([], a);
    TouchAllKeeps([], b);
    SortedIsUnique(TouchAll([], a), TouchAll([], b));
  }

  function Run(s: State, ops: seq<Operation>): State
    decreases |ops|
  {
    if ops == [] then s else Run(Perform(s, ops[0]), ops[1..])
  }

  function Announces(op: Operation): seq<Operation> {
    if op.succeeds && op.touched != [] then [op] else []
  }

  /** The operations that have something to announce. */
  function Announcing(ops: seq<Operation>): seq<Operation> {
    if ops == [] then []
    else Announces(ops[0]) + Announcing(ops[1..])
  }

  /** The announcements are those of `ops`, in order: for each the set of its tables, sorted. */
  ghost predicate AnnounceExactly(announced: seq<seq<Table>>, ops: seq<Operation>) {
    |announced| == |ops|
    && forall i :: 0 <= i < |ops| ==> Ascending(announced[i]) && Tables(announced[i]) == Tables(ops[i].touched)
  }

  lemma PerformsExactly(before: seq<seq<Table>>, earlier: seq<Operation>, op: Operation)
    requires AnnounceExactly(before, earlier)
    ensures var s := Perform(State([], before), op);
            s.buffer == [] && AnnounceExactly(s.announced, earlier + Announces(op))
  {
    TouchAllKeeps([], op.touched);
    HeadIsIn(op.touched);
    assert earlier + [] == earlier;
  }

  /**
   Over any sequence of operations, an announcement is made for each that succeeds and touches a
   table, naming exactly the tables it touched: a failed one announces nothing, and leaves nothing
   behind for the next.
   */
  lemma {:induction false} ChangesAreExact(before: seq<seq<Table>>, earlier: seq<Operation>, ops: seq<Operation>)
    requires AnnounceExactly(before, earlier)
    ensures var s := Run(State([], before), ops);
            s.buffer == [] && AnnounceExactly(s.announced, earlier + Announcing(ops))
    decreases |ops|
  {
    hide AnnounceExactly, Perform;
    if ops == [] {
      assert earlier + [] == earlier;
    } else {
      var s := Perform(State([], before), ops[0]);
      PerformsExactly(before, earlier, ops[0]);
      ChangesAreExact(s.announced, earlier + Announces(ops[0]), ops[1..]);
      assert (earlier + Announces(ops[0])) + Announcing(ops[1..])
          == earlier + (Announces(ops[0]) + Announcing(ops[1..]));
    }
  }
}
