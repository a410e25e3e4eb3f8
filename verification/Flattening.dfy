/** Results that nested loops accumulate: one list per element, joined in order. */
module Flattening {
  import opened Basics

  function FlatMap<A, B>(f: A -> seq<B>, s: seq<A>): seq<B> {
    if s == [] then [] else FlatMap(f, s[..|s| - 1]) + f(s[|s| - 1])
  }

  lemma FlatMapStart<A, B>(f: A -> seq<B>, s: seq<A>)
    ensures FlatMap(f, s[..0]) == []
    ensures s[..|s|] == s
  {
  }

  lemma FlatMapSnoc<A, B>(f: A -> seq<B>, s: seq<A>, n: nat)
    requires n < |s|
    ensures FlatMap(f, s[..n + 1]) == FlatMap(f, s[..n]) + f(s[n])
  {
    assert s[..n + 1][..n] == s[..n];
  }

  lemma FlatMapAppend<A, B>(f: A -> seq<B>, s: seq<A>, x: A)
    ensures FlatMap(f, s + [x]) == FlatMap(f, s) + f(x)
  {
    assert (s + [x])[..|s|] == s;
  }

  lemma ConcatAssociates<T>(a: seq<T>, b: seq<T>, c: seq<T>)
    ensures (a + b) + c == a + (b + c)
  {
  }

  lemma {:induction false} FlatMapConcat<A, B>(f: A -> seq<B>, a: seq<A>, b: seq<A>)
    ensures FlatMap(f, a + b) == FlatMap(f, a) + FlatMap(f, b)
  {
    hide FlatMap;
    if b == [] {
      assert a + b == a && b == b[..0];
      FlatMapStart(f, b);
    } else {
      var init, last := b[..|b| - 1], b[|b| - 1];
      FlatMapConcat(f, a, init);
      assert a + b == (a + init) + [last] && b == init + [last];
      FlatMapAppend(f, a + init, last);
      FlatMapAppend(f, init, last);
      ConcatAssociates(FlatMap(f, a), FlatMap(f, init), f(last));
    }
  }

  lemma {:induction false} FlatMapMembers<A, B>(f: A -> seq<B>, s: seq<A>, y: B)
    ensures y in FlatMap(f, s) <==> exists x :: x in s && y in f(x)
  {
    if s != [] {
      var init, last := s[..|s| - 1], s[|s| - 1];
      FlatMapMembers(f, init, y);
      assert s == init + [last];
      assert last in s;
    }
  }

  lemma {:induction false} FlatMapAgree<A, B>(f: A -> seq<B>, g: A -> seq<B>, s: seq<A>)
    requires forall x | x in s :: f(x) == g(x)
    ensures FlatMap(f, s) == FlatMap(g, s)
  {
    if s != [] {
      FlatMapAgree(f, g, s[..|s| - 1]);
      assert s[|s| - 1] in s;
    }
  }

  lemma {:induction false} FlatMapNothing<A, B>(f: A -> seq<B>, s: seq<A>)
    requires forall x | x in s :: f(x) == []
    ensures FlatMap(f, s) == []
  {
    if s != [] {
      FlatMapNothing(f, s[..|s| - 1]);
      assert s[|s| - 1] in s;
    }
  }

  /** Replacing elements that contribute nothing changes nothing. */
  lemma FlatMapFrame<A, B>(f: A -> seq<B>, a: seq<A>, x: seq<A>, y: seq<A>, b: seq<A>)
    requires forall z | z in x + y :: f(z) == []
    ensures FlatMap(f, a + x + b) == FlatMap(f, a + y + b)
  {
    hide FlatMap;
    FlatMapConcat(f, a + x, b);
    FlatMapConcat(f, a, x);
    FlatMapConcat(f, a + y, b);
    FlatMapConcat(f, a, y);
    FlatMapNothing(f, x);
    FlatMapNothing(f, y);
  }

  /** The first result that a scan finds. */
  function FirstSome<A, B>(f: A -> Option<B>, s: seq<A>): (r: Option<B>)
    ensures r.Some? ==> exists x :: x in s && f(x) == r
    ensures r.None? ==> forall x | x in s :: f(x).None?
  {
    if s == [] then None
    else if f(s[0]).Some? then f(s[0])
    else FirstSome(f, s[1..])
  }

  /** A scan stops at the first hit. */
  lemma {:induction false} FirstSomeIsFirst<A, B>(f: A -> Option<B>, s: seq<A>, i: nat)
    requires i < |s| && f(s[i]).Some? && forall j :: 0 <= j < i ==> f(s[j]).None?
    ensures FirstSome(f, s) == f(s[i])
  {
    if i > 0 {
      assert forall j :: 0 <= j < i - 1 ==> s[1..][j] == s[j + 1];
      FirstSomeIsFirst(f, s[1..], i - 1);
    }
  }

  lemma FlatMapOne<A, B>(f: A -> seq<B>, x: A)
    ensures FlatMap(f, [x]) == f(x)
  {
    assert [x][..0] == [];
  }

  lemma FirstOfOne<A, B>(f: A -> Option<B>, x: A)
    ensures FirstSome(f, [x]) == f(x)
  {
    assert [x][1..] == [];
  }

  lemma FirstOfTwo<A, B>(f: A -> Option<B>, x: A, y: A)
    ensures FirstSome(f, [x, y]) == if f(x).Some? then f(x) else f(y)
  {
    assert [x, y][1..] == [y];
    FirstOfOne(f, y);
  }

  /** A scan over two lists looks at the second only when the first yields nothing. */
  lemma {:induction false} FirstSomeConcat<A, B>(f: A -> Option<B>, a: seq<A>, b: seq<A>)
    ensures FirstSome(f, a + b) == if FirstSome(f, a).Some? then FirstSome(f, a) else FirstSome(f, b)
  {
    if a == [] {
      assert a + b == b;
    } else {
      assert (a + b)[1..] == a[1..] + b;
      FirstSomeConcat(f, a[1..], b);
    }
  }
}
