/**
 The set of running batches (utils/sync/join_set.rs): futures are polled in order until one is
 ready, and that one leaves by `swap_remove`, which moves the last future into its place. A future
 is what it stands for, and what polling it yields is given from outside; a poll that finds none
 ready leaves the set as it was.
 */
module JoinSet {
  import opened Wrappers

  /** `swap_remove`: the last future takes the place of the one that leaves. */
  function SwapRemove<F>(fs: seq<F>, i: nat): (r: seq<F>)
    requires i < |fs|
    ensures |r| == |fs| - 1
  {
    if i == |fs| - 1 then fs[..i] else fs[..|fs| - 1][i := fs[|fs| - 1]]
  }

  /** What polling each future would yield; the first that is ready. */
  function FirstReady<T>(polls: seq<Option<T>>): (i: nat)
    ensures i <= |polls|
    ensures i < |polls| ==> polls[i].Some?
    ensures forall j :: 0 <= j < i ==> polls[j].None?
  {
    if polls == [] || polls[0].Some? then 0 else 1 + FirstReady(polls[1..])
  }

  class LocalJoinSet<F(==)> {
    var futures: seq<F>

    constructor ()
      ensures futures == []
    {
      futures := [];
    }

    method Push(future: F)
      modifies this
      ensures futures == old(futures) + [future]
    {
      futures := futures + [future];
    }

    /**
     One poll of `next()`. `polled` counts the futures polled: none behind the one that completes,
     so no future is polled again after completing.
     */
    method Next<T>(polls: seq<Option<T>>) returns (result: Option<T>, polled: nat)
      requires |polls| == |futures|
      modifies this
      ensures var i := FirstReady(polls);
              if i == |polls| then result == None && futures == old(futures) && polled == |polls|
              else result == polls[i] && futures == SwapRemove(old(futures), i) && polled == i + 1
    {
      var index := 0;
      while index < |futures| && polls[index].None?
        invariant index <= |futures| && forall j :: 0 <= j < index ==> polls[j].None?
      {
        index := index + 1;
      }
      FirstReadyIs(polls, index);
      if index == |futures| {
        return None, index;
      }
      result, polled := polls[index], index + 1;
      if index == |futures| - 1 {
        futures := futures[..index];
      } else {
        futures := futures[..|futures| - 1][index := futures[|futures| - 1]];
      }
    }
  }

  lemma {:induction false} FirstReadyIs<T>(polls: seq<Option<T>>, i: nat)
    requires i <= |polls| && (i < |polls| ==> polls[i].Some?)
    requires forall j :: 0 <= j < i ==> polls[j].None?
    ensures FirstReady(polls) == i
  {
    if i > 0 {
      assert polls[0].None?;
      assert forall j :: 0 <= j < i - 1 ==> polls[1..][j] == polls[j + 1];
      FirstReadyIs(polls[1..], i - 1);
    }
  }

  lemma SplitAt<F>(fs: seq<F>, i: nat)
    requires i < |fs|
    ensures fs == fs[..i] + [fs[i]] + fs[i + 1..]
  {
  }

  lemma ReplaceAt<F>(fs: seq<F>, i: nat, f: F)
    requires i < |fs|
    ensures fs[i := f] == fs[..i] + [f] + fs[i + 1..]
  {
  }

  lemma ReplaceSwapsOne<F>(fs: seq<F>, i: nat, f: F)
    requires i < |fs|
    ensures multiset(fs[i := f]) + multiset{fs[i]} == multiset(fs) + multiset{f}
  {
    SplitAt(fs, i);
    ReplaceAt(fs, i, f);
    var a, b := multiset(fs[..i]), multiset(fs[i + 1..]);
    assert multiset(fs) == a + multiset{fs[i]} + b;
    assert multiset(fs[i := f]) == a + multiset{f} + b;
  }

  /** Removal loses the completed future and nothing else. */
  lemma SwapRemoveTakesOne<F>(fs: seq<F>, i: nat)
    requires i < |fs|
    ensures multiset(SwapRemove(fs, i)) + multiset{fs[i]} == multiset(fs)
  {
    var front, last := fs[..|fs| - 1], fs[|fs| - 1];
    assert fs == front + [last];
    assert multiset(fs) == multiset(front) + multiset{last};
    if i < |fs| - 1 {
      assert front[i] == fs[i];
      ReplaceSwapsOne(front, i, last);
    }
  }

  /** The last future takes the place of the one that leaves; every other stays where it is. */
  lemma SwapRemoveMovesLast<F>(fs: seq<F>, i: nat, k: nat)
    requires i < |fs| && k < |fs| - 1
    ensures SwapRemove(fs, i)[k] == if k == i then fs[|fs| - 1] else fs[k]
  {
  }
}
