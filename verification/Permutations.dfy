/** Bags of keys do not depend on the order of the lists. */
module Permutations {
  import opened Basics

  lemma SplitAt<T>(list: seq<T>, x: T) returns (j: nat)
    requires x in multiset(list)
    ensures j < |list| && list == list[..j] + [x] + list[j + 1..]
    ensures multiset(list[..j] + list[j + 1..]) == multiset(list) - multiset{x}
  {
    j :| j < |list| && list[j] == x;
    assert list == list[..j] + [x] + list[j + 1..];
    assert multiset(list) == multiset(list[..j]) + multiset{x} + multiset(list[j + 1..]);
  }

  lemma InitBag<T>(list: seq<T>)
    requires list != []
    ensures multiset(list[..|list| - 1]) == multiset(list) - multiset{list[|list| - 1]}
    ensures list[|list| - 1] in multiset(list)
  {
    assert list == list[..|list| - 1] + [list[|list| - 1]];
  }

  /** Reordering a list keeps its bag of keys. */
  lemma {:induction false} BagPermute<T, K>(key: T -> K, a: seq<T>, b: seq<T>)
    requires multiset(a) == multiset(b)
    ensures Bag(key, a) == Bag(key, b)
    decreases |a|
  {
    hide Bag;
    if a == [] {
      assert |multiset(b)| == |b| && |multiset(a)| == 0;
    } else {
      var init, x := a[..|a| - 1], a[|a| - 1];
      InitBag(a);
      var j := SplitAt(b, x);
      var front, back := b[..j], b[j + 1..];
      BagPermute(key, init, front + back);
      assert a == init + [x];
      BagSnoc(key, init, x);
      BagConcat(key, front, back);
      BagConcat(key, front + [x], back);
      BagSnoc(key, front, x);
    }
  }

  /** Reordering the objects keeps the bag of keys of a field. */
  lemma {:induction false} ColumnBagPermute<A, T, K>(key: T -> K, f: A -> seq<T>, a: seq<A>, b: seq<A>)
    requires multiset(a) == multiset(b)
    ensures ColumnBag(key, Map(f, a)) == ColumnBag(key, Map(f, b))
    decreases |a|
  {
    hide ColumnBag, Map;
    if a == [] {
      assert |multiset(b)| == |b| && |multiset(a)| == 0;
    } else {
      var init, x := a[..|a| - 1], a[|a| - 1];
      InitBag(a);
      var j := SplitAt(b, x);
      var front, back := b[..j], b[j + 1..];
      ColumnBagPermute(key, f, init, front + back);
      assert a == init + [x];
      MappedSnoc(key, f, init, x);
      MappedConcat(key, f, front, back);
      MappedConcat(key, f, front + [x], back);
      MappedSnoc(key, f, front, x);
      Swap(ColumnBag(key, Map(f, front)), ColumnBag(key, Map(f, back)), Bag(key, f(x)));
    }
  }

  lemma Swap<K>(a: multiset<K>, b: multiset<K>, c: multiset<K>)
    ensures a + b + c == a + c + b
  {
  }

  lemma MappedSnoc<A, T, K>(key: T -> K, f: A -> seq<T>, s: seq<A>, x: A)
    ensures ColumnBag(key, Map(f, s + [x])) == ColumnBag(key, Map(f, s)) + Bag(key, f(x))
  {
    assert Map(f, s + [x]) == Map(f, s) + [f(x)];
    ColumnBagAppend(key, Map(f, s), f(x));
  }

  lemma MappedConcat<A, T, K>(key: T -> K, f: A -> seq<T>, s: seq<A>, t: seq<A>)
    ensures ColumnBag(key, Map(f, s + t)) == ColumnBag(key, Map(f, s)) + ColumnBag(key, Map(f, t))
  {
    assert Map(f, s + t) == Map(f, s) + Map(f, t);
    ColumnBagConcat(key, Map(f, s), Map(f, t));
  }

  lemma {:induction false} ColumnBagPointwise<T, K>(key: T -> K, a: seq<seq<T>>, b: seq<seq<T>>)
    requires |a| == |b|
    requires forall i :: 0 <= i < |a| ==> Bag(key, a[i]) == Bag(key, b[i])
    ensures ColumnBag(key, a) == ColumnBag(key, b)
  {
    hide Bag;
    if a != [] {
      ColumnBagPointwise(key, a[..|a| - 1], b[..|b| - 1]);
    }
  }

  lemma {:induction false} DistinctCounts<T>(ks: seq<T>, k: T)
    requires forall i, j :: 0 <= i < j < |ks| ==> ks[i] != ks[j]
    ensures multiset(ks)[k] == if k in ks then 1 else 0
  {
    if ks != [] {
      var init, last := ks[..|ks| - 1], ks[|ks| - 1];
      DistinctCounts(init, k);
      assert ks == init + [last];
    }
  }

  lemma DistinctLists<T(!new)>(ks: seq<T>, s: set<T>)
    requires forall i, j :: 0 <= i < j < |ks| ==> ks[i] != ks[j]
    requires forall k :: k in ks <==> k in s
    ensures Lists(ks, s)
  {
    forall k ensures multiset(ks)[k] == multiset(s)[k] {
      DistinctCounts(ks, k);
    }
  }

  /** A list holds no key more often than all lists together. */
  lemma {:induction false} BagInColumn<T, K>(key: T -> K, cols: seq<seq<T>>, i: nat, k: K)
    requires i < |cols|
    ensures ColumnBag(key, cols[..i])[k] + Bag(key, cols[i])[k] <= ColumnBag(key, cols)[k]
  {
    hide Bag;
    var init := cols[..|cols| - 1];
    if i < |init| {
      BagInColumn(key, init, i, k);
      assert init[..i] == cols[..i];
    }
  }
}
