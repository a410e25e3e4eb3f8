/** The greedy two-pointer packing of pkg/policyendpoints: new entries go into the free
    capacity of the slots in order, then into new slots of `chunk` entries each. */
module Packing {
  import opened Basics

  // ---------------------------------------------------------------- slot arithmetic

  /** How many of `left` entries a slot holding `len` entries takes. */
  function Take(len: nat, left: nat, chunk: nat): (n: nat)
    ensures n <= left
  {
    Min(Max(0, chunk - len), left)
  }

  /** Where the slice of slot `i` starts in the list of `total` new entries. */
  function Offset(lens: seq<nat>, total: nat, chunk: nat, i: nat): (o: nat)
    requires i <= |lens|
    ensures o <= total
  {
    if i == 0 then 0 else
      var o := Offset(lens, total, chunk, i - 1);
      o + Take(lens[i - 1], total - o, chunk)
  }

  /** Free capacity of the slots. */
  function Free(lens: seq<nat>, chunk: nat): nat {
    if lens == [] then 0 else
      Free(lens[..|lens| - 1], chunk) + Max(0, chunk - lens[|lens| - 1])
  }

  lemma {:induction false} OffsetPrefix(lens: seq<nat>, more: seq<nat>, total: nat, chunk: nat, i: nat)
    requires i <= |lens|
    ensures Offset(lens + more, total, chunk, i) == Offset(lens, total, chunk, i)
  {
    if i > 0 {
      OffsetPrefix(lens, more, total, chunk, i - 1);
    }
  }

  /** The packing wastes no capacity: the slots take everything they have room for. */
  lemma {:induction false} OffsetClosedForm(lens: seq<nat>, total: nat, chunk: nat)
    ensures Offset(lens, total, chunk, |lens|) == Min(total, Free(lens, chunk))
  {
    if lens != [] {
      var init := lens[..|lens| - 1];
      assert lens == init + [lens[|lens| - 1]];
      OffsetPrefix(init, [lens[|lens| - 1]], total, chunk, |init|);
      OffsetClosedForm(init, total, chunk);
    }
  }

  /** Continuing with later slots is packing the rest of the entries into them. */
  lemma {:induction false} OffsetSuffix(lens: seq<nat>, more: seq<nat>, total: nat, chunk: nat, i: nat)
    requires i <= |more|
    ensures var o := Offset(lens, total, chunk, |lens|);
            Offset(lens + more, total, chunk, |lens| + i) == o + Offset(more, total - o, chunk, i)
  {
    OffsetPrefix(lens, more, total, chunk, |lens|);
    if i > 0 {
      OffsetSuffix(lens, more, total, chunk, i - 1);
      assert (lens + more)[|lens| + i - 1] == more[i - 1];
    }
  }

  lemma {:induction false} OffsetMonotone(lens: seq<nat>, total: nat, chunk: nat, i: nat, j: nat)
    requires i <= j <= |lens|
    ensures Offset(lens, total, chunk, i) <= Offset(lens, total, chunk, j)
  {
    if i < j {
      OffsetMonotone(lens, total, chunk, i, j - 1);
    }
  }

  /** Entries are left over for new slots only when every earlier slot is full. */
  lemma {:induction false} LeftoverMeansFull(lens: seq<nat>, total: nat, chunk: nat, i: nat)
    requires i < |lens|
    requires Offset(lens, total, chunk, |lens|) < total
    ensures var o := Offset(lens, total, chunk, i);
            lens[i] + (Offset(lens, total, chunk, i + 1) - o) >= chunk
  {
    OffsetMonotone(lens, total, chunk, i + 1, |lens|);
  }

  // ---------------------------------------------------------------- chunks for new slots

  function Chunks<T>(items: seq<T>, chunk: nat): (r: seq<seq<T>>)
    requires chunk > 0
    ensures forall i :: 0 <= i < |r| ==> 0 < |r[i]| <= chunk
    decreases |items|
  {
    if items == [] then [] else
      var n := Min(chunk, |items|);
      [items[..n]] + Chunks(items[n..], chunk)
  }

  /** The number of slots of `b` entries that `a` entries need. */
  function CeilDiv(a: nat, b: nat): nat
    requires b > 0
    decreases a
  {
    if a == 0 then 0 else 1 + CeilDiv(a - Min(a, b), b)
  }

  /** CeilDiv(a, b) is the least number of slots of size `b` that hold `a` entries. */
  lemma {:induction false} CeilDivLeast(a: nat, b: nat, slots: nat)
    requires b > 0
    ensures a <= slots * b <==> CeilDiv(a, b) <= slots
    decreases a
  {
    if a > 0 && slots > 0 {
      CeilDivLeast(a - Min(a, b), b, slots - 1);
      assert slots * b == (slots - 1) * b + b;
    }
  }

  lemma {:induction false} ChunksCount<T>(items: seq<T>, chunk: nat)
    requires chunk > 0
    ensures |Chunks(items, chunk)| == CeilDiv(|items|, chunk)
    decreases |items|
  {
    if items != [] {
      ChunksCount(items[Min(chunk, |items|)..], chunk);
    }
  }

  lemma {:induction false} ChunksBag<T, K>(key: T -> K, items: seq<T>, chunk: nat)
    requires chunk > 0
    ensures ColumnBag(key, Chunks(items, chunk)) == Bag(key, items)
    decreases |items|
  {
    if items != [] {
      var n := Min(chunk, |items|);
      var rest := Chunks(items[n..], chunk);
      ChunksBag(key, items[n..], chunk);
      ColumnBagConcat(key, [items[..n]], rest);
      assert [items[..n]][..0] == [];
      assert ColumnBag(key, [items[..n]]) == Bag(key, items[..n]);
      BagConcat(key, items[..n], items[n..]);
      assert items == items[..n] + items[n..];
    }
  }

  // ---------------------------------------------------------------- one field of every object

  /** A list-valued field of an object, such as `Spec.Ingress`. */
  datatype Column<!O, !T> = Column(get: O -> seq<T>, put: (O, seq<T>) -> O)

  ghost predicate Lawful<O(!new), T(!new)>(col: Column<O, T>) {
    forall o, v :: col.get(col.put(o, v)) == v
  }

  function Sizes<T>(cols: seq<seq<T>>): (r: seq<nat>)
    ensures |r| == |cols|
  {
    seq(|cols|, i requires 0 <= i < |cols| => |cols[i]|)
  }

  function Lens<O, T>(col: Column<O, T>, objs: seq<O>): (r: seq<nat>)
    ensures |r| == |objs|
  {
    Sizes(Map(col.get, objs))
  }

  function Length<O, T>(col: Column<O, T>, o: O): nat { |col.get(o)| }

  function Append<O, T>(col: Column<O, T>, o: O, more: seq<T>): O { col.put(o, col.get(o) + more) }

  /** The slice of `items` that slot `i` receives. */
  function Slice<T>(lens: seq<nat>, items: seq<T>, chunk: nat, i: nat): (r: seq<T>)
    requires i < |lens|
    ensures |r| == Take(lens[i], |items| - Offset(lens, |items|, chunk, i), chunk)
  {
    items[Offset(lens, |items|, chunk, i)..Offset(lens, |items|, chunk, i + 1)]
  }

  /** The first `n` lists with every slot's slice appended. */
  function FilledLists<T>(cols: seq<seq<T>>, items: seq<T>, chunk: nat, n: nat): (r: seq<seq<T>>)
    requires n <= |cols|
    ensures |r| == n
  {
    if n == 0 then [] else
      FilledLists(cols, items, chunk, n - 1) + [cols[n - 1] + Slice(Sizes(cols), items, chunk, n - 1)]
  }

  /** The first `n` objects with every slot's slice appended in place. */
  function Filled<O, T>(col: Column<O, T>, objs: seq<O>, items: seq<T>, chunk: nat, n: nat): (r: seq<O>)
    requires n <= |objs|
    ensures |r| == n
  {
    if n == 0 then [] else
      var slice := Slice(Lens(col, objs), items, chunk, n - 1);
      Filled(col, objs, items, chunk, n - 1) +
      [if slice == [] then objs[n - 1] else Append(col, objs[n - 1], slice)]
  }

  /** New objects, one per chunk. */
  function Fresh<O, T>(col: Column<O, T>, blank: O, chunks: seq<seq<T>>): (r: seq<O>)
    ensures |r| == |chunks|
  {
    seq(|chunks|, i requires 0 <= i < |chunks| => col.put(blank, chunks[i]))
  }

  function LeftOver<O, T>(col: Column<O, T>, objs: seq<O>, items: seq<T>, chunk: nat): seq<T> {
    items[Offset(Lens(col, objs), |items|, chunk, |objs|)..]
  }

  /** One packing pass over all objects. */
  function PackColumn<O, T>(col: Column<O, T>, objs: seq<O>, items: seq<T>, chunk: nat, blank: O): seq<O>
    requires chunk > 0
  {
    Filled(col, objs, items, chunk, |objs|) + Fresh(col, blank, Chunks(LeftOver(col, objs, items, chunk), chunk))
  }

  // ---------------------------------------------------------------- conservation

  lemma FilledListsStep<T>(cols: seq<seq<T>>, items: seq<T>, chunk: nat, n: nat)
    requires n < |cols|
    ensures var o, e := Offset(Sizes(cols), |items|, chunk, n), Offset(Sizes(cols), |items|, chunk, n + 1);
            && o <= e <= |items|
            && FilledLists(cols, items, chunk, n + 1) == FilledLists(cols, items, chunk, n) + [cols[n] + items[o..e]]
  {
  }

  lemma FilledBagStart<T, K>(key: T -> K, cols: seq<seq<T>>, items: seq<T>, chunk: nat)
    ensures ColumnBag(key, FilledLists(cols, items, chunk, 0)) ==
            ColumnBag(key, cols[..0]) + Bag(key, items[..Offset(Sizes(cols), |items|, chunk, 0)])
  {
    BagEmpty(key);
  }

  lemma {:induction false} FilledBag<T, K>(key: T -> K, cols: seq<seq<T>>, items: seq<T>, chunk: nat, n: nat)
    requires n <= |cols|
    ensures ColumnBag(key, FilledLists(cols, items, chunk, n)) ==
            ColumnBag(key, cols[..n]) + Bag(key, items[..Offset(Sizes(cols), |items|, chunk, n)])
  {
    hide *;
    if n == 0 {
      FilledBagStart(key, cols, items, chunk);
    } else {
      var lens, done := Sizes(cols), FilledLists(cols, items, chunk, n - 1);
      var o, e := Offset(lens, |items|, chunk, n - 1), Offset(lens, |items|, chunk, n);
      FilledBag(key, cols, items, chunk, n - 1);
      FilledListsStep(cols, items, chunk, n - 1);
      ColumnBagAppend(key, done, cols[n - 1] + items[o..e]);
      ColumnBagSnoc(key, cols, n - 1);
      BagConcat(key, cols[n - 1], items[o..e]);
      BagSplit(key, items, o, e);
      Regroup(ColumnBag(key, cols[..n - 1]), Bag(key, items[..o]), Bag(key, cols[n - 1]), Bag(key, items[o..e]));
    }
  }

  lemma {:induction false} FilledAsLists<O(!new), T(!new)>(
    col: Column<O, T>, objs: seq<O>, items: seq<T>, chunk: nat, n: nat)
    requires Lawful(col) && n <= |objs|
    ensures Map(col.get, Filled(col, objs, items, chunk, n)) ==
            FilledLists(Map(col.get, objs), items, chunk, n)
  {
    if n > 0 {
      FilledAsLists(col, objs, items, chunk, n - 1);
      var slice := Slice(Lens(col, objs), items, chunk, n - 1);
      if slice == [] {
        assert col.get(objs[n - 1]) + slice == col.get(objs[n - 1]);
      }
    }
  }

  lemma PackedLists<O(!new), T(!new)>(col: Column<O, T>, objs: seq<O>, items: seq<T>, chunk: nat, blank: O)
    requires Lawful(col) && chunk > 0
    ensures Map(col.get, PackColumn(col, objs, items, chunk, blank)) ==
            FilledLists(Map(col.get, objs), items, chunk, |objs|) + Chunks(LeftOver(col, objs, items, chunk), chunk)
  {
    FilledAsLists(col, objs, items, chunk, |objs|);
  }

  /** A packing pass adds exactly the new entries: nothing is lost, nothing is duplicated. */
  lemma PackConserves<O(!new), T(!new), K>(
    col: Column<O, T>, key: T -> K, objs: seq<O>, items: seq<T>, chunk: nat, blank: O)
    requires Lawful(col) && chunk > 0
    ensures ColumnBag(key, Map(col.get, PackColumn(col, objs, items, chunk, blank))) ==
            ColumnBag(key, Map(col.get, objs)) + Bag(key, items)
  {
    var cols, rest := Map(col.get, objs), LeftOver(col, objs, items, chunk);
    var e := Offset(Sizes(cols), |items|, chunk, |cols|);
    PackedLists(col, objs, items, chunk, blank);
    ColumnBagConcat(key, FilledLists(cols, items, chunk, |cols|), Chunks(rest, chunk));
    ChunksBag(key, rest, chunk);
    FilledBag(key, cols, items, chunk, |cols|);
    assert cols[..|cols|] == cols;
    assert Bag(key, items) == Bag(key, items[..e]) + Bag(key, rest) by {
      BagSplit(key, items, e, |items|);
      assert items[..|items|] == items;
    }
    Associate(ColumnBag(key, cols), Bag(key, items[..e]), Bag(key, rest));
  }

  /** Writing one field leaves another one alone. */
  ghost predicate Independent<O(!new), T(!new), U>(col: Column<O, T>, other: O -> U) {
    forall o, v :: other(col.put(o, v)) == other(o)
  }

  /** A packing pass over one field leaves every other field of the old objects alone; in the
      new ones it is that of a blank object. */
  lemma PackKeepsOther<O(!new), T(!new), U>(
    col: Column<O, T>, other: O -> U, objs: seq<O>, items: seq<T>, chunk: nat, blank: O)
    requires Independent(col, other) && chunk > 0
    ensures var packed := PackColumn(col, objs, items, chunk, blank);
            && |objs| <= |packed|
            && (forall i :: 0 <= i < |objs| ==> other(packed[i]) == other(objs[i]))
            && (forall i :: |objs| <= i < |packed| ==> other(packed[i]) == other(blank))
  {
    var filled := Filled(col, objs, items, chunk, |objs|);
    forall i | 0 <= i < |objs| ensures other(filled[i]) == other(objs[i]) {
      FilledAt(col, objs, items, chunk, |objs|, i);
    }
  }

  lemma {:induction false} FilledAt<O, T>(col: Column<O, T>, objs: seq<O>, items: seq<T>, chunk: nat, n: nat, i: nat)
    requires i < n <= |objs|
    ensures var slice := Slice(Lens(col, objs), items, chunk, i);
            Filled(col, objs, items, chunk, n)[i] ==
            if slice == [] then objs[i] else Append(col, objs[i], slice)
  {
    if i < n - 1 {
      FilledAt(col, objs, items, chunk, n - 1, i);
    }
  }

  /** No slot grows beyond the chunk size, kept entries stay at the front of their slot, and
      new objects appear only when every earlier slot is full. */
  lemma PackBounds<O(!new), T(!new)>(
    col: Column<O, T>, objs: seq<O>, items: seq<T>, chunk: nat, blank: O, i: nat)
    requires Lawful(col) && chunk > 0
    requires i < |PackColumn(col, objs, items, chunk, blank)|
    ensures var packed := PackColumn(col, objs, items, chunk, blank);
            && |objs| <= |packed|
            && (i < |objs| ==>
                  && col.get(objs[i]) <= col.get(packed[i])
                  && |col.get(packed[i])| <= Max(chunk, |col.get(objs[i])|)
                  && (|packed| > |objs| ==> |col.get(packed[i])| >= chunk))
            && (i >= |objs| ==> 0 < |col.get(packed[i])| <= chunk)
  {
    var packed := PackColumn(col, objs, items, chunk, blank);
    if i < |objs| {
      FilledAt(col, objs, items, chunk, |objs|, i);
      if |packed| > |objs| {
        assert LeftOver(col, objs, items, chunk) != [];
        LeftoverMeansFull(Lens(col, objs), |items|, chunk, i);
      }
    }
  }

  // ---------------------------------------------------------------- the imperative passes

  /** Names of the first `n` slots that receive something. */
  ghost function TouchedNames<O, T>(
    col: Column<O, T>, name: O -> string, objs: seq<O>, items: seq<T>, chunk: nat, n: nat): set<string>
    requires n <= |objs|
  {
    if n == 0 then {} else
      TouchedNames(col, name, objs, items, chunk, n - 1) +
      if Slice(Lens(col, objs), items, chunk, n - 1) == [] then {} else {name(objs[n - 1])}
  }

  /** Moves the end pointer over the entries that a slot of `len` entries has room for. */
  method AdvanceChunkEnd(len: nat, chunkStart: nat, total: nat, chunk: nat) returns (chunkEnd: nat)
    requires chunkStart <= total
    ensures chunkEnd == chunkStart + Take(len, total - chunkStart, chunk)
  {
    chunkEnd := chunkStart;
    if len < chunk && chunkEnd < total {
      while len + (chunkEnd - chunkStart + 1) < chunk && chunkEnd < total - 1
        invariant chunkStart <= chunkEnd < total
        invariant len + (chunkEnd - chunkStart + 1) <= chunk
      {
        chunkEnd := chunkEnd + 1;
      }
      // one past the last entry taken
      chunkEnd := chunkEnd + 1;
    }
  }

  lemma FillStep<O(!new), T(!new)>(
    col: Column<O, T>, name: O -> string, objs: seq<O>, items: seq<T>, start: nat, chunk: nat, i: nat)
    requires i < |objs| && start <= |items|
    ensures var rest, o := items[start..], objs[i];
            var lo := start + Offset(Lens(col, objs), |rest|, chunk, i);
            var hi := lo + Take(Length(col, o), |items| - lo, chunk);
            && hi == start + Offset(Lens(col, objs), |rest|, chunk, i + 1) <= |items|
            && Filled(col, objs, rest, chunk, i + 1) ==
               Filled(col, objs, rest, chunk, i) + [if lo == hi then o else Append(col, o, items[lo..hi])]
            && TouchedNames(col, name, objs, rest, chunk, i + 1) ==
               TouchedNames(col, name, objs, rest, chunk, i) + if lo == hi then {} else {NameOf(name, o)}
  {
    var rest, o := items[start..], objs[i];
    var lo := start + Offset(Lens(col, objs), |rest|, chunk, i);
    var hi := lo + Take(|col.get(o)|, |items| - lo, chunk);
    assert Slice(Lens(col, objs), rest, chunk, i) == items[lo..hi];
  }

  lemma FillStart<O, T>(col: Column<O, T>, name: O -> string, objs: seq<O>, items: seq<T>, chunk: nat)
    ensures Offset(Lens(col, objs), |items|, chunk, 0) == 0
    ensures Filled(col, objs, items, chunk, 0) == []
    ensures TouchedNames(col, name, objs, items, chunk, 0) == {}
  {
  }

  function NameOf<O>(name: O -> string, o: O): string { name(o) }

  /** The two-pointer loop over one list of objects, continuing at `start`. */
  method PackList<O(!new), T(!new)>(
    col: Column<O, T>, name: O -> string, objs: seq<O>, items: seq<T>, start: nat, chunk: nat)
    returns (packed: seq<O>, chunkEnd: nat, doNotDelete: set<string>)
    requires start <= |items|
    ensures chunkEnd == start + Offset(Lens(col, objs), |items| - start, chunk, |objs|) <= |items|
    ensures packed == Filled(col, objs, items[start..], chunk, |objs|)
    ensures doNotDelete == TouchedNames(col, name, objs, items[start..], chunk, |objs|)
  {
    hide *;
    ghost var rest := items[start..];
    FillStart(col, name, objs, rest, chunk);
    packed, chunkEnd, doNotDelete := [], start, {};
    for i := 0 to |objs|
      invariant chunkEnd == start + Offset(Lens(col, objs), |rest|, chunk, i) <= |items|
      invariant packed == Filled(col, objs, rest, chunk, i)
      invariant doNotDelete == TouchedNames(col, name, objs, rest, chunk, i)
    {
      FillStep(col, name, objs, items, start, chunk, i);
      var chunkStart, o := chunkEnd, objs[i];
      chunkEnd := AdvanceChunkEnd(Length(col, o), chunkStart, |items|, chunk);
      if chunkStart != chunkEnd {
        // an object that received entries is needed
        doNotDelete := doNotDelete + {NameOf(name, o)};
        o := Append(col, o, items[chunkStart..chunkEnd]);
      }
      packed := packed + [o];
    }
  }

  lemma LensConcat<O, T>(col: Column<O, T>, a: seq<O>, b: seq<O>)
    ensures Lens(col, a + b) == Lens(col, a) + Lens(col, b)
  {
  }

  lemma FilledNext<O, T>(col: Column<O, T>, objs: seq<O>, items: seq<T>, chunk: nat, n: nat)
    requires n < |objs|
    ensures var slice := Slice(Lens(col, objs), items, chunk, n);
            Filled(col, objs, items, chunk, n + 1) ==
            Filled(col, objs, items, chunk, n) + [if slice == [] then objs[n] else Append(col, objs[n], slice)]
  {
  }

  lemma TouchedNext<O, T>(col: Column<O, T>, name: O -> string, objs: seq<O>, items: seq<T>, chunk: nat, n: nat)
    requires n < |objs|
    ensures TouchedNames(col, name, objs, items, chunk, n + 1) ==
            TouchedNames(col, name, objs, items, chunk, n) +
            if Slice(Lens(col, objs), items, chunk, n) == [] then {} else {name(objs[n])}
  {
  }

  lemma SlicePrefix<T>(lens: seq<nat>, more: seq<nat>, items: seq<T>, chunk: nat, n: nat)
    requires n < |lens|
    ensures Slice(lens + more, items, chunk, n) == Slice(lens, items, chunk, n)
  {
    OffsetPrefix(lens, more, |items|, chunk, n);
    OffsetPrefix(lens, more, |items|, chunk, n + 1);
  }

  lemma SliceSuffix<T>(lens: seq<nat>, more: seq<nat>, items: seq<T>, chunk: nat, n: nat)
    requires n < |more|
    ensures var o := Offset(lens, |items|, chunk, |lens|);
            Slice(lens + more, items, chunk, |lens| + n) == Slice(more, items[o..], chunk, n)
  {
    hide Offset;
    var o := Offset(lens, |items|, chunk, |lens|);
    OffsetMonotone(more, |items| - o, chunk, n, n + 1);
    OffsetSuffix(lens, more, |items|, chunk, n);
    OffsetSuffix(lens, more, |items|, chunk, n + 1);
    var x, y := Offset(more, |items| - o, chunk, n), Offset(more, |items| - o, chunk, n + 1);
    assert items[o..][x..y] == items[o + x..o + y];
  }

  lemma {:induction false} FilledPrefix<O, T>(
    col: Column<O, T>, name: O -> string, a: seq<O>, b: seq<O>, items: seq<T>, chunk: nat, n: nat)
    requires n <= |a|
    ensures Filled(col, a + b, items, chunk, n) == Filled(col, a, items, chunk, n)
    ensures TouchedNames(col, name, a + b, items, chunk, n) == TouchedNames(col, name, a, items, chunk, n)
  {
    hide *;
    if n == 0 {
      FillStart(col, name, a, items, chunk);
      FillStart(col, name, a + b, items, chunk);
    } else {
      FilledPrefix(col, name, a, b, items, chunk, n - 1);
      LensConcat(col, a, b);
      SlicePrefix(Lens(col, a), Lens(col, b), items, chunk, n - 1);
      FilledNext(col, a, items, chunk, n - 1);
      FilledNext(col, a + b, items, chunk, n - 1);
      TouchedNext(col, name, a, items, chunk, n - 1);
      TouchedNext(col, name, a + b, items, chunk, n - 1);
    }
  }

  /** Filling two lists one after the other is filling their concatenation. */
  lemma {:induction false} FilledConcat<O, T>(
    col: Column<O, T>, name: O -> string, a: seq<O>, b: seq<O>, items: seq<T>, chunk: nat, n: nat)
    requires n <= |b|
    ensures var rest := items[Offset(Lens(col, a), |items|, chunk, |a|)..];
            && Filled(col, a + b, items, chunk, |a| + n) ==
               Filled(col, a, items, chunk, |a|) + Filled(col, b, rest, chunk, n)
            && TouchedNames(col, name, a + b, items, chunk, |a| + n) ==
               TouchedNames(col, name, a, items, chunk, |a|) + TouchedNames(col, name, b, rest, chunk, n)
  {
    hide *;
    var rest := items[Offset(Lens(col, a), |items|, chunk, |a|)..];
    if n == 0 {
      FilledPrefix(col, name, a, b, items, chunk, |a|);
      FillStart(col, name, b, rest, chunk);
    } else {
      FilledConcat(col, name, a, b, items, chunk, n - 1);
      LensConcat(col, a, b);
      SliceSuffix(Lens(col, a), Lens(col, b), items, chunk, n - 1);
      FilledNext(col, a + b, items, chunk, |a| + n - 1);
      FilledNext(col, b, rest, chunk, n - 1);
      TouchedNext(col, name, a + b, items, chunk, |a| + n - 1);
      TouchedNext(col, name, b, rest, chunk, n - 1);
      assert (a + b)[|a| + n - 1] == b[n - 1];
      var slice := Slice(Lens(col, b), rest, chunk, n - 1);
      SnocAssociative(Filled(col, a, items, chunk, |a|), Filled(col, b, rest, chunk, n - 1),
        if slice == [] then b[n - 1] else Append(col, b[n - 1], slice));
    }
  }

  lemma SnocAssociative<O>(a: seq<O>, b: seq<O>, x: O)
    ensures a + b + [x] == a + (b + [x])
  {
  }

  /** New objects for the entries that no old object had room for. */
  method CreateObjects<O, T>(col: Column<O, T>, blank: O, rest: seq<T>, chunk: nat) returns (created: seq<O>)
    requires chunk > 0
    ensures created == Fresh(col, blank, Chunks(rest, chunk))
  {
    hide Fresh, Chunks;
    created := [];
    var p := 0;
    assert rest[0..] == rest && rest[|rest|..] == [];
    FreshNothing(col, blank, chunk);
    while p < |rest|
      invariant p <= |rest|
      invariant created + Fresh(col, blank, Chunks(rest[p..], chunk)) == Fresh(col, blank, Chunks(rest, chunk))
    {
      var q := Min(chunk, |rest| - p);
      FreshStep(col, blank, rest, p, q, chunk);
      created := created + [col.put(blank, rest[p..p + q])];
      p := p + q;
    }
  }

  lemma FreshNothing<O, T>(col: Column<O, T>, blank: O, chunk: nat)
    requires chunk > 0
    ensures Fresh(col, blank, Chunks([], chunk)) == []
  {
  }

  lemma FreshStep<O, T>(col: Column<O, T>, blank: O, rest: seq<T>, p: nat, q: nat, chunk: nat)
    requires chunk > 0 && p < |rest| && q == Min(chunk, |rest| - p)
    ensures Fresh(col, blank, Chunks(rest[p..], chunk)) ==
            [col.put(blank, rest[p..p + q])] + Fresh(col, blank, Chunks(rest[p + q..], chunk))
  {
    assert rest[p..][..q] == rest[p..p + q] && rest[p..][q..] == rest[p + q..];
    assert Chunks(rest[p..], chunk) == [rest[p..p + q]] + Chunks(rest[p + q..], chunk);
  }

  /** One packing method of the source: existing objects first, then the ones marked for
      deletion, then the new ones of earlier passes, then further new ones. */
  method Pack<O(!new), T(!new)>(
    col: Column<O, T>, name: O -> string, modified: seq<O>, potentialDeletes: seq<O>, created: seq<O>,
    items: seq<T>, chunk: nat, blank: O)
    returns (modified': seq<O>, potentialDeletes': seq<O>, created': seq<O>, doNotDelete: set<string>)
    requires chunk > 0
    ensures |modified'| == |modified| && |potentialDeletes'| == |potentialDeletes|
    ensures modified' + potentialDeletes' + created' ==
            PackColumn(col, modified + potentialDeletes + created, items, chunk, blank)
    ensures doNotDelete == TouchedNames(
              col, name, modified + potentialDeletes + created, items, chunk, |modified + potentialDeletes + created|)
  {
    hide *;
    var objs := modified + potentialDeletes + created;
    var end, names, more;
    modified', end, doNotDelete := PackList(col, name, modified, items, 0, chunk);
    assert items[0..] == items;
    ghost var end1 := end;
    potentialDeletes', end, names := PackList(col, name, potentialDeletes, items, end, chunk);
    doNotDelete := doNotDelete + names;
    FilledConcat(col, name, modified, potentialDeletes, items, chunk, |potentialDeletes|);
    OffsetSuffixLens(col, modified, potentialDeletes, |items|, chunk);
    var end2 := end;
    created', end, names := PackList(col, name, created, items, end, chunk);
    doNotDelete := doNotDelete + names;
    FilledConcat(col, name, modified + potentialDeletes, created, items, chunk, |created|);
    OffsetSuffixLens(col, modified + potentialDeletes, created, |items|, chunk);
    more := CreateObjects(col, blank, items[end..], chunk);
    PackColumnDef(col, objs, items, chunk, blank);
    created' := created' + more;
  }

  lemma OffsetSuffixLens<O, T>(col: Column<O, T>, a: seq<O>, b: seq<O>, total: nat, chunk: nat)
    ensures var o := Offset(Lens(col, a), total, chunk, |a|);
            Offset(Lens(col, a + b), total, chunk, |a + b|) == o + Offset(Lens(col, b), total - o, chunk, |b|)
  {
    hide *;
    LensConcat(col, a, b);
    LensLength(col, a);
    LensLength(col, b);
    OffsetSuffix(Lens(col, a), Lens(col, b), total, chunk, |b|);
  }

  lemma LensLength<O, T>(col: Column<O, T>, objs: seq<O>)
    ensures |Lens(col, objs)| == |objs|
  {
  }

  lemma PackColumnDef<O, T>(col: Column<O, T>, objs: seq<O>, items: seq<T>, chunk: nat, blank: O)
    requires chunk > 0
    ensures PackColumn(col, objs, items, chunk, blank) ==
            Filled(col, objs, items, chunk, |objs|) +
            Fresh(col, blank, Chunks(items[Offset(Lens(col, objs), |items|, chunk, |objs|)..], chunk))
  {
  }

  lemma {:induction false} TouchedIff<O, T>(
    col: Column<O, T>, name: O -> string, objs: seq<O>, items: seq<T>, chunk: nat, n: nat, x: string)
    requires n <= |objs|
    ensures x in TouchedNames(col, name, objs, items, chunk, n) <==>
            exists i :: 0 <= i < n && name(objs[i]) == x && Slice(Lens(col, objs), items, chunk, i) != []
  {
    hide Slice;
    if n > 0 {
      TouchedIff(col, name, objs, items, chunk, n - 1, x);
    }
  }

  /** The name set of the source is exact: an empty slot with a name of its own is marked
      as needed exactly when the pass put something into it. */
  lemma TouchedExactly<O(!new), T(!new)>(
    col: Column<O, T>, name: O -> string, objs: seq<O>, items: seq<T>, chunk: nat, blank: O, j: nat)
    requires Lawful(col) && chunk > 0
    requires j < |objs| && col.get(objs[j]) == []
    requires forall i | 0 <= i < |objs| && i != j :: name(objs[i]) != name(objs[j])
    ensures |objs| <= |PackColumn(col, objs, items, chunk, blank)|
    ensures name(objs[j]) in TouchedNames(col, name, objs, items, chunk, |objs|) <==>
            col.get(PackColumn(col, objs, items, chunk, blank)[j]) != []
  {
    TouchedIff(col, name, objs, items, chunk, |objs|, name(objs[j]));
    FilledAt(col, objs, items, chunk, |objs|, j);
    hide Slice, Filled, Chunks, LeftOver;
    var slice := Slice(Lens(col, objs), items, chunk, j);
    assert col.get(objs[j]) + slice == slice;
  }
}
