/** Purging stale entries: each list keeps the first occurrence of every key that is still
    wanted; what no list held is left to be packed. */
module Purge {
  import opened Basics

  /** The wanted keys that no entry of the lists has. */
  ghost function Left<T, K>(key: T -> K, cols: seq<seq<T>>, wanted: set<K>): set<K> {
    set k | k in wanted && k !in ColumnBag(key, cols)
  }

  ghost function Unheld<T, K>(key: T -> K, list: seq<T>, wanted: set<K>): set<K> {
    set k | k in wanted && k !in Bag(key, list)
  }

  /** The entries of a list that survive: wanted, and not seen earlier in the list. */
  function Kept<T, K(==)>(key: T -> K, list: seq<T>, wanted: set<K>): (r: seq<T>)
    ensures |r| <= |list|
    ensures forall x | x in r :: x in list
  {
    if list == [] then [] else
      var init, last := list[..|list| - 1], list[|list| - 1];
      if key(last) in wanted && key(last) !in Bag(key, init) then Kept(key, init, wanted) + [last]
      else Kept(key, init, wanted)
  }

  /** The first `n` lists after purging them in order. */
  ghost function KeptLists<T, K>(key: T -> K, cols: seq<seq<T>>, wanted: set<K>, n: nat): (r: seq<seq<T>>)
    requires n <= |cols|
    ensures |r| == n
  {
    if n == 0 then [] else
      KeptLists(key, cols, wanted, n - 1) + [Kept(key, cols[n - 1], Left(key, cols[..n - 1], wanted))]
  }

  /** Purging keeps every wanted key of the list exactly once and nothing else. */
  lemma {:induction false} KeptBag<T, K>(key: T -> K, list: seq<T>, wanted: set<K>, k: K)
    ensures Bag(key, Kept(key, list, wanted))[k] == if k in wanted && k in Bag(key, list) then 1 else 0
  {
    if list == [] {
      BagEmpty(key);
    } else {
      var init, last := list[..|list| - 1], list[|list| - 1];
      KeptBag(key, init, wanted, k);
      assert list == init + [last];
      BagSnoc(key, init, last);
      BagSnoc(key, Kept(key, init, wanted), last);
    }
  }

  lemma NoColumns<T, K>(key: T -> K, cols: seq<seq<T>>)
    ensures ColumnBag(key, cols[..0]) == multiset{} && ColumnBag(key, []) == multiset{}
  {
  }

  /** Over all lists: every wanted key that was held is held exactly once. */
  lemma {:induction false} KeptListsBag<T, K>(key: T -> K, cols: seq<seq<T>>, wanted: set<K>, n: nat, k: K)
    requires n <= |cols|
    ensures ColumnBag(key, KeptLists(key, cols, wanted, n))[k] ==
            if k in wanted && k in ColumnBag(key, cols[..n]) then 1 else 0
  {
    hide ColumnBag, Bag, Kept;
    if n == 0 {
      NoColumns(key, cols);
    } else {
      var left := Left(key, cols[..n - 1], wanted);
      KeptListsBag(key, cols, wanted, n - 1, k);
      KeptBag(key, cols[n - 1], left, k);
      ColumnBagSnoc(key, cols, n - 1);
      ColumnBagAppend(key, KeptLists(key, cols, wanted, n - 1), Kept(key, cols[n - 1], left));
    }
  }

  /** Kept entries together with any listing of the left-over keys are the wanted keys,
      each exactly once. */
  lemma KeptAndLeft<T, K(!new)>(key: T -> K, cols: seq<seq<T>>, wanted: set<K>, order: seq<K>)
    requires Lists(order, Left(key, cols, wanted))
    ensures ColumnBag(key, KeptLists(key, cols, wanted, |cols|)) + multiset(order) == multiset(wanted)
  {
    var kept := ColumnBag(key, KeptLists(key, cols, wanted, |cols|));
    forall k ensures (kept + multiset(order))[k] == multiset(wanted)[k] {
      KeptListsBag(key, cols, wanted, |cols|, k);
      assert cols[..|cols|] == cols;
    }
  }

  /** A list all of whose keys are wanted and distinct is kept as it is. */
  lemma {:induction false} KeptWhole<T, K>(key: T -> K, list: seq<T>, wanted: set<K>)
    requires forall k | k in Bag(key, list) :: k in wanted && Bag(key, list)[k] == 1
    ensures Kept(key, list, wanted) == list
  {
    if list != [] {
      var init, last := list[..|list| - 1], list[|list| - 1];
      assert list == init + [last];
      BagSnoc(key, init, last);
      assert key(last) in Bag(key, list);
      forall k | k in Bag(key, init) ensures k in wanted && Bag(key, init)[k] == 1 {
        assert k in Bag(key, list);
      }
      KeptWhole(key, init, wanted);
    }
  }

  /** The length test of the source is exact: nothing dropped means nothing changed. */
  lemma {:induction false} KeptSameLength<T, K>(key: T -> K, list: seq<T>, wanted: set<K>)
    requires |Kept(key, list, wanted)| == |list|
    ensures Kept(key, list, wanted) == list
  {
    if list != [] {
      KeptSameLength(key, list[..|list| - 1], wanted);
    }
  }

  lemma LeftStep<T, K(!new)>(key: T -> K, cols: seq<seq<T>>, wanted: set<K>, n: nat)
    requires n < |cols|
    ensures Left(key, cols[..n + 1], wanted) == Unheld(key, cols[n], Left(key, cols[..n], wanted))
  {
    ColumnBagSnoc(key, cols, n);
  }

  lemma PurgeStart<T, K(!new)>(key: T -> K, wanted: set<K>)
    ensures Kept(key, [], wanted) == [] && Unheld(key, [], wanted) == wanted
  {
    BagEmpty(key);
  }

  lemma PurgeStep<T, K(!new)>(key: T -> K, list: seq<T>, wanted: set<K>, i: nat)
    requires i < |list|
    ensures var k := key(list[i]);
            && Kept(key, list[..i + 1], wanted) ==
               Kept(key, list[..i], wanted) + (if k in Unheld(key, list[..i], wanted) then [list[i]] else [])
            && Unheld(key, list[..i + 1], wanted) == Unheld(key, list[..i], wanted) - {k}
  {
    assert list[..i + 1] == list[..i] + [list[i]];
    assert list[..i + 1][..i] == list[..i];
    BagSnoc(key, list[..i], list[i]);
    hide Bag;
  }

  /** The purge loop over one list: the source deletes a key from the map when an existing
      entry has it. */
  method PurgeList<T, K(==, !new)>(key: T -> K, list: seq<T>, wanted: set<K>) returns (kept: seq<T>, left: set<K>)
    ensures kept == Kept(key, list, wanted)
    ensures left == Unheld(key, list, wanted)
  {
    hide Kept, Unheld;
    kept, left := [], wanted;
    PurgeStart(key, wanted);
    assert list[..0] == [];
    for i := 0 to |list|
      invariant kept == Kept(key, list[..i], wanted)
      invariant left == Unheld(key, list[..i], wanted)
    {
      PurgeStep(key, list, wanted, i);
      var k := key(list[i]);
      if k in left {
        kept := kept + [list[i]];
        left := left - {k};
      }
    }
    assert list[..|list|] == list;
  }
}
