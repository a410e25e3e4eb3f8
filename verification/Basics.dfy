/** Vocabulary shared by every module: optional values, bags of keys, listings of sets. */
module Basics {

  datatype Option<+T> = None | Some(value: T)

  function Min(a: int, b: int): int { if a < b then a else b }

  function Max(a: int, b: int): int { if a < b then b else a }

  /** `ks` lists every element of `s` exactly once, in some order. This is all that Go's
      map iteration, `maps.Keys` and `UnsortedList` promise about their order. */
  ghost predicate Lists<T>(ks: seq<T>, s: set<T>) {
    multiset(ks) == multiset(s)
  }

  lemma ListsMembers<T>(ks: seq<T>, s: set<T>)
    requires Lists(ks, s)
    ensures forall k :: k in ks <==> k in s
    ensures |ks| == |s|
    ensures forall i, j :: 0 <= i < j < |ks| ==> ks[i] != ks[j]
  {
    forall k ensures k in ks <==> k in s {
      assert k in ks <==> k in multiset(ks);
    }
    assert |multiset(ks)| == |ks| && |multiset(s)| == |s|;
    forall i, j | 0 <= i < j < |ks| ensures ks[i] != ks[j] {
      assert ks == ks[..j] + [ks[j]] + ks[j + 1..];
      assert ks[i] in multiset(ks[..j]);
      assert multiset(ks)[ks[j]] <= 1;
    }
  }

  /** The iteration order of a Go map: any order is possible. */
  method Enumerate<T>(s: set<T>) returns (ks: seq<T>)
    ensures Lists(ks, s)
  {
    ks := [];
    var rest := s;
    while rest != {}
      invariant rest <= s
      invariant multiset(ks) + multiset(rest) == multiset(s)
    {
      var k :| k in rest;
      ks, rest := ks + [k], rest - {k};
    }
  }

  function Map<A, B>(f: A -> B, s: seq<A>): (r: seq<B>)
    ensures |r| == |s|
    ensures forall i :: 0 <= i < |s| ==> r[i] == f(s[i])
  {
    seq(|s|, i requires 0 <= i < |s| => f(s[i]))
  }

  /** The values of the map in the order of the keys given, as getListOfEndpointInfoFromHash
      and maps.Values list them. */
  function Lookup<K, V>(m: map<K, V>, keys: seq<K>): (r: seq<V>)
    requires forall k | k in keys :: k in m
    ensures |r| == |keys|
    ensures forall i :: 0 <= i < |keys| ==> r[i] == m[keys[i]]
  {
    seq(|keys|, i requires 0 <= i < |keys| => m[keys[i]])
  }

  /** The key of entries that are their own keys. */
  function Itself<T>(): T -> T { (x: T) => x }

  /** The bag of keys of a list. */
  function Bag<T, K>(key: T -> K, list: seq<T>): multiset<K> {
    multiset(Map(key, list))
  }

  lemma BagConcat<T, K>(key: T -> K, a: seq<T>, b: seq<T>)
    ensures Bag(key, a + b) == Bag(key, a) + Bag(key, b)
  {
    assert Map(key, a + b) == Map(key, a) + Map(key, b);
  }

  lemma BagSplit<T, K>(key: T -> K, list: seq<T>, o: nat, e: nat)
    requires o <= e <= |list|
    ensures Bag(key, list[..e]) == Bag(key, list[..o]) + Bag(key, list[o..e])
  {
    assert list[..e] == list[..o] + list[o..e];
    BagConcat(key, list[..o], list[o..e]);
  }

  lemma BagEmpty<T, K>(key: T -> K)
    ensures Bag(key, []) == multiset{}
  {
    assert Map(key, []) == [];
  }

  lemma BagMembers<T, K>(key: T -> K, list: seq<T>, k: K)
    ensures k in Bag(key, list) <==> exists x :: x in list && key(x) == k
  {
    var keys := Map(key, list);
    assert k in Bag(key, list) <==> k in keys;
    if x :| x in list && key(x) == k {
      var i :| 0 <= i < |list| && list[i] == x;
      assert keys[i] == k;
    }
    if k in keys {
      var i :| 0 <= i < |keys| && keys[i] == k;
      assert list[i] in list;
    }
  }

  /** The bag of keys of a sequence of lists, one list per object. */
  function ColumnBag<T, K>(key: T -> K, cols: seq<seq<T>>): multiset<K> {
    if cols == [] then multiset{} else
      ColumnBag(key, cols[..|cols| - 1]) + Bag(key, cols[|cols| - 1])
  }

  lemma ColumnBagSnoc<T, K>(key: T -> K, cols: seq<seq<T>>, n: nat)
    requires n < |cols|
    ensures ColumnBag(key, cols[..n + 1]) == ColumnBag(key, cols[..n]) + Bag(key, cols[n])
  {
    assert cols[..n + 1][..n] == cols[..n];
  }

  lemma BagSnoc<T, K>(key: T -> K, list: seq<T>, x: T)
    ensures Bag(key, list + [x]) == Bag(key, list) + multiset{key(x)}
  {
    BagConcat(key, list, [x]);
    assert Map(key, [x]) == [key(x)];
  }

  lemma CountedTwice<K>(keys: seq<K>, i: nat, j: nat)
    requires i < j < |keys| && keys[i] == keys[j]
    ensures multiset(keys)[keys[i]] >= 2
  {
    assert keys == keys[..j] + [keys[j]] + keys[j + 1..];
    assert keys[i] in multiset(keys[..j]);
  }

  /** Keys that agree on the entries count them alike. */
  lemma {:induction false} AgreeingKeysCount<T, K, L>(f: T -> K, g: T -> L, list: seq<T>, x: T)
    requires forall y | y in list :: f(x) == f(y) <==> g(x) == g(y)
    ensures Bag(f, list)[f(x)] == Bag(g, list)[g(x)]
  {
    hide Bag;
    if list == [] {
      BagEmpty(f);
      BagEmpty(g);
    } else {
      var init, last := list[..|list| - 1], list[|list| - 1];
      assert list == init + [last];
      AgreeingKeysCount(f, g, init, x);
      BagSnoc(f, init, last);
      BagSnoc(g, init, last);
    }
  }

  /** Keys that agree on the entries of two lists find the lists equal together. */
  lemma AgreeingKeys<T, K, L(!new)>(f: T -> K, g: T -> L, a: seq<T>, b: seq<T>)
    requires forall x, y | x in a + b && y in a + b :: f(x) == f(y) <==> g(x) == g(y)
    requires Bag(f, a) == Bag(f, b)
    ensures Bag(g, a) == Bag(g, b)
  {
    forall v: L ensures Bag(g, a)[v] == Bag(g, b)[v] {
      BagMembers(g, a, v);
      BagMembers(g, b, v);
      if v in Bag(g, a) || v in Bag(g, b) {
        var x :| x in a + b && g(x) == v;
        AgreeingKeysCount(f, g, a, x);
        AgreeingKeysCount(f, g, b, x);
      }
    }
  }

  lemma BagSize<T, K>(key: T -> K, list: seq<T>)
    ensures |Bag(key, list)| == |list|
  {
  }

  /** A key of multiplicity one belongs to one position only. */
  lemma BagPosition<T, K>(key: T -> K, list: seq<T>, i: nat, j: nat)
    requires i < |list| && j < |list| && key(list[i]) == key(list[j])
    requires Bag(key, list)[key(list[i])] <= 1
    ensures i == j
  {
    if i < j {
      CountedTwice(Map(key, list), i, j);
    } else if j < i {
      CountedTwice(Map(key, list), j, i);
    }
  }

  lemma ColumnBagAppend<T, K>(key: T -> K, cols: seq<seq<T>>, last: seq<T>)
    ensures ColumnBag(key, cols + [last]) == ColumnBag(key, cols) + Bag(key, last)
  {
    assert (cols + [last])[..|cols|] == cols;
  }

  lemma Regroup<K>(a: multiset<K>, b: multiset<K>, c: multiset<K>, d: multiset<K>)
    ensures (a + b) + (c + d) == (a + c) + (b + d)
  {
  }

  lemma Associate<K>(a: multiset<K>, b: multiset<K>, c: multiset<K>)
    ensures (a + b) + c == a + (b + c)
  {
  }

  lemma {:induction false} ColumnBagConcat<T, K>(key: T -> K, a: seq<seq<T>>, b: seq<seq<T>>)
    ensures ColumnBag(key, a + b) == ColumnBag(key, a) + ColumnBag(key, b)
  {
    if b == [] {
      assert a + b == a;
    } else {
      var init, last := b[..|b| - 1], b[|b| - 1];
      ColumnBagConcat(key, a, init);
      assert (a + b)[..|a + b| - 1] == a + init;
      assert (a + b)[|a + b| - 1] == last;
      assert ColumnBag(key, a + b) == ColumnBag(key, a + init) + Bag(key, last);
    }
  }

  lemma {:induction false} ColumnBagMembers<T, K>(key: T -> K, cols: seq<seq<T>>, k: K)
    ensures k in ColumnBag(key, cols) <==>
            exists i, x :: 0 <= i < |cols| && x in cols[i] && key(x) == k
  {
    if cols != [] {
      var init, last := cols[..|cols| - 1], cols[|cols| - 1];
      ColumnBagMembers(key, init, k);
      BagMembers(key, last, k);
      assert cols == init + [last];
      if x :| x in last && key(x) == k {
        assert x in cols[|cols| - 1];
      }
      if i, x :| 0 <= i < |init| && x in init[i] && key(x) == k {
        assert x in cols[i];
      }
    }
  }

  lemma {:induction false} ColumnBagEmpty<T, K>(key: T -> K, cols: seq<seq<T>>)
    requires forall i :: 0 <= i < |cols| ==> cols[i] == []
    ensures ColumnBag(key, cols) == multiset{}
  {
    if cols != [] {
      ColumnBagEmpty(key, cols[..|cols| - 1]);
    }
  }
}
