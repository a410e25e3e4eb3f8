/** Packing again what the purge of a store took away: which entries each object loses, which
    it receives, and when it receives what it lost. */
module Refilling {
  import opened Basics
  import opened Permutations
  import opened PolicyInfo
  import opened Packing
  import opened Purge
  import opened Reconciler
  import opened Placement
  import opened Repacking

  // ---------------------------------------------------------------- what the purge keeps and drops

  /** The entries whose keys are wanted. */
  function Current<T, K>(key: T -> K, list: seq<T>, wanted: set<K>): (r: seq<T>) {
    if list == [] then [] else
      var init, last := list[..|list| - 1], list[|list| - 1];
      Current(key, init, wanted) + if key(last) in wanted then [last] else []
  }

  /** The entries whose keys are not wanted. */
  function Outdated<T, K>(key: T -> K, list: seq<T>, wanted: set<K>): (r: seq<T>) {
    if list == [] then [] else
      var init, last := list[..|list| - 1], list[|list| - 1];
      Outdated(key, init, wanted) + if key(last) in wanted then [] else [last]
  }

  lemma {:induction false} SplitMembers<T, K>(key: T -> K, list: seq<T>, wanted: set<K>, x: T)
    ensures x in Current(key, list, wanted) <==> x in list && key(x) in wanted
    ensures x in Outdated(key, list, wanted) <==> x in list && key(x) !in wanted
  {
    if list != [] {
      var init, last := list[..|list| - 1], list[|list| - 1];
      SplitMembers(key, init, wanted, x);
      assert list == init + [last];
    }
  }

  /** Nothing is lost between the two. */
  lemma {:induction false} SplitBag<T, K, L>(key: T -> K, g: T -> L, list: seq<T>, wanted: set<K>)
    ensures Bag(g, list) == Bag(g, Current(key, list, wanted)) + Bag(g, Outdated(key, list, wanted))
    ensures |list| == |Current(key, list, wanted)| + |Outdated(key, list, wanted)|
  {
    hide Bag;
    if list == [] {
      BagEmpty(g);
    } else {
      var init, last := list[..|list| - 1], list[|list| - 1];
      SplitBag(key, g, init, wanted);
      assert list == init + [last];
      BagSnoc(g, init, last);
      BagSnoc(g, Current(key, init, wanted), last);
      BagSnoc(g, Outdated(key, init, wanted), last);
      assert Current(key, init, wanted) + [] == Current(key, init, wanted);
      assert Outdated(key, init, wanted) + [] == Outdated(key, init, wanted);
    }
  }

  lemma {:induction false} AllCurrent<T, K>(key: T -> K, list: seq<T>, wanted: set<K>)
    requires forall x | x in list :: key(x) in wanted
    ensures Current(key, list, wanted) == list
  {
    if list != [] {
      var init, last := list[..|list| - 1], list[|list| - 1];
      AllCurrent(key, init, wanted);
      assert list == init + [last];
    }
  }

  /** No wanted key is held twice. */
  ghost predicate HeldAtMostOnce<T, K(!new)>(key: T -> K, cols: seq<seq<T>>, wanted: set<K>) {
    forall k | k in wanted :: ColumnBag(key, cols)[k] <= 1
  }

  lemma {:induction false} KeptIsCurrent<T, K>(key: T -> K, list: seq<T>, left: set<K>, wanted: set<K>)
    requires left <= wanted
    requires forall k | k in wanted && k in Bag(key, list) :: k in left && Bag(key, list)[k] == 1
    ensures Kept(key, list, left) == Current(key, list, wanted)
  {
    if list != [] {
      var init, last := list[..|list| - 1], list[|list| - 1];
      assert list == init + [last];
      BagSnoc(key, init, last);
      hide Bag;
      forall k | k in wanted && k in Bag(key, init) ensures k in left && Bag(key, init)[k] == 1 {
        assert k in Bag(key, list);
      }
      KeptIsCurrent(key, init, left, wanted);
      assert key(last) in Bag(key, list);
    }
  }

  /** Then purging is filtering. */
  lemma PurgeIsFilter<T, K(!new)>(key: T -> K, cols: seq<seq<T>>, wanted: set<K>, i: nat)
    requires HeldAtMostOnce(key, cols, wanted) && i < |cols|
    ensures Kept(key, cols[i], Left(key, cols[..i], wanted)) == Current(key, cols[i], wanted)
  {
    hide ColumnBag, Bag, Kept, Current;
    var left := Left(key, cols[..i], wanted);
    forall k | k in wanted && k in Bag(key, cols[i]) ensures k in left && Bag(key, cols[i])[k] == 1 {
      BagInColumn(key, cols, i, k);
    }
    KeptIsCurrent(key, cols[i], left, wanted);
  }

  ghost function CurrentLists<T, K>(key: T -> K, cols: seq<seq<T>>, wanted: set<K>): (r: seq<seq<T>>)
    ensures |r| == |cols| && forall i :: 0 <= i < |cols| ==> r[i] == Current(key, cols[i], wanted)
  {
    seq(|cols|, i requires 0 <= i < |cols| => Current(key, cols[i], wanted))
  }

  ghost function OutdatedLists<T, K>(key: T -> K, cols: seq<seq<T>>, wanted: set<K>): (r: seq<seq<T>>)
    ensures |r| == |cols| && forall i :: 0 <= i < |cols| ==> r[i] == Outdated(key, cols[i], wanted)
  {
    seq(|cols|, i requires 0 <= i < |cols| => Outdated(key, cols[i], wanted))
  }

  lemma {:induction false} SplitColumns<T, K, L>(key: T -> K, g: T -> L, cols: seq<seq<T>>, wanted: set<K>)
    ensures ColumnBag(g, cols) ==
            ColumnBag(g, CurrentLists(key, cols, wanted)) + ColumnBag(g, OutdatedLists(key, cols, wanted))
  {
    hide ColumnBag, Bag, Current, Outdated;
    if cols == [] {
      NoColumns(g, cols);
      assert CurrentLists(key, cols, wanted) == [] && OutdatedLists(key, cols, wanted) == [];
    } else {
      var init, last := cols[..|cols| - 1], cols[|cols| - 1];
      SplitColumns(key, g, init, wanted);
      SplitBag(key, g, last, wanted);
      assert cols == init + [last];
      assert CurrentLists(key, cols, wanted) == CurrentLists(key, init, wanted) + [Current(key, last, wanted)];
      assert OutdatedLists(key, cols, wanted) == OutdatedLists(key, init, wanted) + [Outdated(key, last, wanted)];
      ColumnBagAppend(g, init, last);
      ColumnBagAppend(g, CurrentLists(key, init, wanted), Current(key, last, wanted));
      ColumnBagAppend(g, OutdatedLists(key, init, wanted), Outdated(key, last, wanted));
    }
  }

  lemma {:induction false} KeptListsAt<T, K(!new)>(key: T -> K, cols: seq<seq<T>>, wanted: set<K>, n: nat, i: nat)
    requires i < n <= |cols|
    ensures KeptLists(key, cols, wanted, n)[i] == Kept(key, cols[i], Left(key, cols[..i], wanted))
  {
    hide Kept, Left;
    if i < n - 1 {
      KeptListsAt(key, cols, wanted, n - 1, i);
    }
  }

  /** What the lists keep and what is left to be packed are the wanted keys, each once. */
  lemma CurrentAndLeft<T, K(!new)>(key: T -> K, cols: seq<seq<T>>, wanted: set<K>, order: seq<K>)
    requires HeldAtMostOnce(key, cols, wanted) && Lists(order, Left(key, cols, wanted))
    ensures ColumnBag(key, CurrentLists(key, cols, wanted)) + multiset(order) == multiset(wanted)
  {
    hide ColumnBag, Current, Left, HeldAtMostOnce, Lists, Kept, KeptLists;
    forall i: nat | i < |cols| ensures KeptLists(key, cols, wanted, |cols|)[i] == CurrentLists(key, cols, wanted)[i] {
      KeptListsAt(key, cols, wanted, |cols|, i);
      PurgeIsFilter(key, cols, wanted, i);
    }
    assert KeptLists(key, cols, wanted, |cols|) == CurrentLists(key, cols, wanted);
    KeptAndLeft(key, cols, wanted, order);
  }

  /** A finer key is counted at most as often. */
  lemma {:induction false} FinerCount<T, K, L>(f: T -> K, g: T -> L, list: seq<T>, x: T)
    requires forall y | y in list :: f(x) == f(y) ==> g(x) == g(y)
    ensures Bag(f, list)[f(x)] <= Bag(g, list)[g(x)]
  {
    hide Bag;
    if list == [] {
      BagEmpty(f);
      BagEmpty(g);
    } else {
      var init, last := list[..|list| - 1], list[|list| - 1];
      assert list == init + [last];
      FinerCount(f, g, init, x);
      BagSnoc(f, init, last);
      BagSnoc(g, init, last);
    }
  }

  lemma {:induction false} FinerCountAll<T, K, L>(f: T -> K, g: T -> L, cols: seq<seq<T>>, x: T)
    requires forall i, y | 0 <= i < |cols| && y in cols[i] :: f(x) == f(y) ==> g(x) == g(y)
    ensures ColumnBag(f, cols)[f(x)] <= ColumnBag(g, cols)[g(x)]
  {
    hide Bag;
    if cols != [] {
      FinerCountAll(f, g, cols[..|cols| - 1], x);
      FinerCount(f, g, cols[|cols| - 1], x);
    }
  }

  ghost predicate NoneTwice<H, R>(cfg: Config<H, R>, existing: seq<PolicyObject<H, R>>, d: Desired<R>) {
    && HeldAtMostOnce(cfg.key, Ingresses(existing), d.ingress.Keys)
    && HeldAtMostOnce(cfg.key, Egresses(existing), d.egress.Keys)
    && HeldAtMostOnce(Itself<PodEndpoint>(), PodLists(existing), d.pods)
  }

  /** An object without its stale entries, its header brought up to date. */
  ghost function Trimmed<H, R>(cfg: Config<H, R>, d: Desired<R>, o: PolicyObject<H, R>): PolicyObject<H, R> {
    PolicyObject(o.name, cfg.refresh(o.header), Current(cfg.key, o.ingress, d.ingress.Keys),
      Current(cfg.key, o.egress, d.egress.Keys), Current(Itself<PodEndpoint>(), o.pods, d.pods))
  }

  lemma PurgedIsTrimmed<H, R>(cfg: Config<H, R>, existing: seq<PolicyObject<H, R>>, d: Desired<R>, i: nat)
    requires NoneTwice(cfg, existing, d) && i < |existing|
    ensures PurgedObject(cfg, existing, d, i) == Trimmed(cfg, d, existing[i])
  {
    ColumnLengths(existing);
    hide Kept, Left, Current, Itself, Ingresses, Egresses, PodLists, PurgedObject, HeldAtMostOnce;
    PurgedObjectFields(cfg, existing, d, i);
    PurgeIsFilter(cfg.key, Ingresses(existing), d.ingress.Keys, i);
    PurgeIsFilter(cfg.key, Egresses(existing), d.egress.Keys, i);
    PurgeIsFilter(Itself<PodEndpoint>(), PodLists(existing), d.pods, i);
  }

  // ---------------------------------------------------------------- the order of the slots

  lemma SlotTrimmed<H, R>(cfg: Config<H, R>, existing: seq<PolicyObject<H, R>>, d: Desired<R>, j: nat) returns (i: nat)
    requires NoneTwice(cfg, existing, d) && j < |Slots(cfg, existing, d)|
    ensures i < |existing| && Slots(cfg, existing, d)[j] == Trimmed(cfg, d, existing[i])
  {
    hide Slots, Trimmed, PurgedObject, NoneTwice, PurgeAll;
    SlotMember(cfg, existing, d, j);
    i := SlotOrigin(cfg, existing, d, Slots(cfg, existing, d)[j]);
    PurgedIsTrimmed(cfg, existing, d, i);
  }

  lemma SlotBareness<H, R>(cfg: Config<H, R>, existing: seq<PolicyObject<H, R>>, d: Desired<R>, j: nat)
    requires j < |Slots(cfg, existing, d)|
    ensures IsBare(Slots(cfg, existing, d)[j]) <==> j >= |Loaded(PurgeAll(cfg, existing, d, |existing|))|
  {
    hide PurgeAll, IsBare;
    var purged := PurgeAll(cfg, existing, d, |existing|);
    assert Slots(cfg, existing, d) == Loaded(purged) + Bare(purged);
    if j < |Loaded(purged)| {
      assert Loaded(purged)[j] in Loaded(purged);
    } else {
      assert Bare(purged)[j - |Loaded(purged)|] in Bare(purged);
    }
  }

  /** Objects that keep something come first. */
  lemma LoadedFirst<H, R>(cfg: Config<H, R>, existing: seq<PolicyObject<H, R>>, d: Desired<R>, j: nat, k: nat)
    requires j < k < |Slots(cfg, existing, d)| && IsBare(Slots(cfg, existing, d)[j])
    ensures IsBare(Slots(cfg, existing, d)[k])
  {
    hide *;
    SlotBareness(cfg, existing, d, j);
    SlotBareness(cfg, existing, d, k);
  }

  lemma {:induction false} LoadedBareHead<H, R>(x: PolicyObject<H, R>, rest: seq<PolicyObject<H, R>>)
    ensures Loaded([x] + rest) == (if IsBare(x) then [] else [x]) + Loaded(rest)
    ensures Bare([x] + rest) == (if IsBare(x) then [x] else []) + Bare(rest)
  {
    hide *;
    LoadedBareNone<H, R>();
    if rest == [] {
      LoadedBareSnoc([], x);
      assert [x] + rest == [] + [x];
    } else {
      var init, last := rest[..|rest| - 1], rest[|rest| - 1];
      LoadedBareHead(x, init);
      LoadedBareSnoc([x] + init, last);
      LoadedBareSnoc(init, last);
      assert [x] + rest == ([x] + init) + [last] && rest == init + [last];
    }
  }

  /** The object listed first precedes every object, except that a bare one follows the loaded. */
  lemma ListedFirst<H, R>(cfg: Config<H, R>, existing: seq<PolicyObject<H, R>>, d: Desired<R>) returns (j: nat)
    requires NoneTwice(cfg, existing, d) && existing != []
    ensures j < |Slots(cfg, existing, d)| && Slots(cfg, existing, d)[j] == Trimmed(cfg, d, existing[0])
    ensures forall k :: 0 <= k < j ==> !IsBare(Slots(cfg, existing, d)[k]) && IsBare(Slots(cfg, existing, d)[j])
  {
    var purged := PurgeAll(cfg, existing, d, |existing|);
    PurgeAllAt(cfg, existing, d, |existing|, 0);
    PurgedIsTrimmed(cfg, existing, d, 0);
    hide PurgeAll, IsBare, Trimmed, NoneTwice, PurgedObject;
    var x, rest := purged[0], purged[1..];
    assert purged == [x] + rest;
    LoadedBareHead(x, rest);
    assert Slots(cfg, existing, d) == Loaded(purged) + Bare(purged);
    j := if IsBare(x) then |Loaded(purged)| else 0;
    forall k | 0 <= k < j ensures !IsBare(Slots(cfg, existing, d)[k]) {
      assert Loaded(purged)[k] in Loaded(purged);
    }
  }

  // ---------------------------------------------------------------- what packing adds

  ghost function IngressLens<H, R>(slots: seq<PolicyObject<H, R>>): seq<nat> { Lens(IngressColumn<H, R>(), slots) }

  ghost function EgressLens<H, R>(slots: seq<PolicyObject<H, R>>): seq<nat> { Lens(EgressColumn<H, R>(), slots) }

  lemma IngressPacked<H, R>(slots: seq<PolicyObject<H, R>>, items: seq<R>, chunk: nat, blank: PolicyObject<H, R>)
    requires chunk > 0
    ensures var packed := PackColumn(IngressColumn(), slots, items, chunk, blank);
            && |packed| >= |slots| == |IngressLens(slots)|
            && (forall j :: 0 <= j < |slots| ==>
                  packed[j] == slots[j].(ingress := slots[j].ingress + Slice(IngressLens(slots), items, chunk, j)))
            && (Offset(IngressLens(slots), |items|, chunk, |slots|) == |items| ==> |packed| == |slots|)
  {
    var col := IngressColumn<H, R>();
    hide Slice, Filled, Lens;
    forall j | 0 <= j < |slots|
      ensures Filled(col, slots, items, chunk, |slots|)[j] ==
              slots[j].(ingress := slots[j].ingress + Slice(IngressLens(slots), items, chunk, j))
    {
      FilledAt(col, slots, items, chunk, |slots|, j);
      assert slots[j].ingress + [] == slots[j].ingress;
    }
  }

  lemma EgressPacked<H, R>(slots: seq<PolicyObject<H, R>>, items: seq<R>, chunk: nat, blank: PolicyObject<H, R>)
    requires chunk > 0
    ensures var packed := PackColumn(EgressColumn(), slots, items, chunk, blank);
            && |packed| >= |slots| == |EgressLens(slots)|
            && (forall j :: 0 <= j < |slots| ==>
                  packed[j] == slots[j].(egress := slots[j].egress + Slice(EgressLens(slots), items, chunk, j)))
            && (Offset(EgressLens(slots), |items|, chunk, |slots|) == |items| ==> |packed| == |slots|)
  {
    var col := EgressColumn<H, R>();
    hide Slice, Filled, Lens;
    forall j | 0 <= j < |slots|
      ensures Filled(col, slots, items, chunk, |slots|)[j] ==
              slots[j].(egress := slots[j].egress + Slice(EgressLens(slots), items, chunk, j))
    {
      FilledAt(col, slots, items, chunk, |slots|, j);
      assert slots[j].egress + [] == slots[j].egress;
    }
  }

  lemma LensPrefix<H, R>(slots: seq<PolicyObject<H, R>>, packed: seq<PolicyObject<H, R>>)
    requires |slots| <= |packed| && forall j :: 0 <= j < |slots| ==> packed[j].egress == slots[j].egress
    ensures |EgressLens(slots)| == |slots|
    ensures EgressLens(packed) == EgressLens(slots) + EgressLens(packed)[|slots|..]
  {
  }

  /** Object `o` after it received the slices of slot `j`. */
  ghost function Received<H, R>(slots: seq<PolicyObject<H, R>>, ingress: seq<R>, egress: seq<R>, chunk: nat, j: nat): PolicyObject<H, R>
    requires j < |slots| == |IngressLens(slots)| == |EgressLens(slots)|
  {
    slots[j].(ingress := slots[j].ingress + Slice(IngressLens(slots), ingress, chunk, j),
              egress := slots[j].egress + Slice(EgressLens(slots), egress, chunk, j))
  }

  /** When no pod is left to place, each slot receives its slices of the rules, and nothing is
      created if they take everything. */
  lemma PackedSlots<H, R>(cfg: Config<H, R>, slots: seq<PolicyObject<H, R>>, ingress: seq<R>, egress: seq<R>)
    requires cfg.chunk > 0
    ensures |IngressLens(slots)| == |EgressLens(slots)| == |slots|
    ensures |PackAll(cfg, slots, ingress, egress, [])| >= |slots|
    ensures forall j :: 0 <= j < |slots| ==> PackAll(cfg, slots, ingress, egress, [])[j] == Received(slots, ingress, egress, cfg.chunk, j)
    ensures Offset(IngressLens(slots), |ingress|, cfg.chunk, |slots|) == |ingress| && Offset(EgressLens(slots), |egress|, cfg.chunk, |slots|) == |egress|
      ==> |PackAll(cfg, slots, ingress, egress, [])| == |slots|
  {
    var blank, chunk := Blank(cfg), cfg.chunk;
    var packed1 := PackColumn(IngressColumn(), slots, ingress, chunk, blank);
    var packed2 := PackColumn(EgressColumn(), packed1, egress, chunk, blank);
    hide PackColumn, Slice, IngressLens, EgressLens, Offset;
    IngressPacked(slots, ingress, chunk, blank);
    LensPrefix(slots, packed1);
    EgressPacked(packed1, egress, chunk, blank);
    PackNothing(PodColumn<H, R>(), packed2, chunk, blank);
    forall j | 0 <= j < |slots| ensures packed2[j] == Received(slots, ingress, egress, chunk, j) {
      SlicePrefix(EgressLens(slots), EgressLens(packed1)[|slots|..], egress, chunk, j);
    }
    if |packed1| == |slots| {
      assert EgressLens(packed1) == EgressLens(slots);
    }
  }

  // ---------------------------------------------------------------- the plan around it

  /** Nothing created and no object left empty next to another: every object is updated. */
  lemma FinishInPlace<H, R>(cfg: Config<H, R>, modified: seq<PolicyObject<H, R>>, candidates: seq<PolicyObject<H, R>>)
    requires |modified| + |candidates| == 1 || (modified + candidates != [] && forall o | o in modified + candidates :: !IsBare(o))
    ensures var plan := Finish(cfg, modified, candidates, []);
            plan.create == [] && plan.delete == [] && forall o | o in plan.update :: o in modified + candidates
  {
    hide IsBare;
    if |candidates| == 1 && modified == [] {
      LoadedBareNone<H, R>();
      LoadedBareSnoc([], candidates[0]);
      assert candidates == [] + [candidates[0]];
    } else if |modified| + |candidates| == 1 {
      LoadedBareNone<H, R>();
    } else {
      forall o | o in candidates ensures !IsBare(o) {
        assert o in modified + candidates;
      }
      AllLoaded(candidates);
    }
  }

  /** A plan that creates and deletes nothing updates every object. */
  lemma FinishUpdatesAll<H, R>(
    cfg: Config<H, R>, modified: seq<PolicyObject<H, R>>, candidates: seq<PolicyObject<H, R>>,
    created: seq<PolicyObject<H, R>>, o: PolicyObject<H, R>)
    requires Finish(cfg, modified, candidates, created).create == [] && Finish(cfg, modified, candidates, created).delete == []
    requires o in modified + candidates
    ensures o in Finish(cfg, modified, candidates, created).update
  {
    hide IsBare;
    assert o in candidates ==> o in Loaded(candidates) || o in Bare(candidates);
  }

  // ---------------------------------------------------------------- getting back what was lost

  /** Slot `j` receives the entries `lost[j]` again, up to order. */
  ghost predicate Refills<T(!new), K>(g: T -> K, lens: seq<nat>, items: seq<T>, chunk: nat, lost: seq<seq<T>>) {
    && |lost| == |lens|
    && forall j :: 0 <= j < |lens| ==> Bag(g, Slice(lens, items, chunk, j)) == Bag(g, lost[j])
  }

  ghost function Slices<T>(lens: seq<nat>, items: seq<T>, chunk: nat): (r: seq<seq<T>>)
    ensures |r| == |lens| && forall j :: 0 <= j < |lens| ==> r[j] == Slice(lens, items, chunk, j)
  {
    seq(|lens|, j requires 0 <= j < |lens| => Slice(lens, items, chunk, j))
  }

  lemma SliceDef<T>(lens: seq<nat>, items: seq<T>, chunk: nat, j: nat)
    requires j < |lens|
    ensures var o, e := Offset(lens, |items|, chunk, j), Offset(lens, |items|, chunk, j + 1);
            o <= e <= |items| && Slice(lens, items, chunk, j) == items[o..e] && e - o == Take(lens[j], |items| - o, chunk)
  {
  }

  lemma {:induction false} SlicesBag<T, K>(g: T -> K, lens: seq<nat>, items: seq<T>, chunk: nat, n: nat)
    requires n <= |lens|
    ensures ColumnBag(g, Slices(lens, items, chunk)[..n]) == Bag(g, items[..Offset(lens, |items|, chunk, n)])
  {
    var slices := Slices(lens, items, chunk);
    hide Slices, Slice, Bag, ColumnBag;
    if n == 0 {
      BagEmpty(g);
      NoColumns(g, slices);
    } else {
      SlicesBag(g, lens, items, chunk, n - 1);
      ColumnBagSnoc(g, slices, n - 1);
      SliceDef(lens, items, chunk, n - 1);
      BagSplit(g, items, Offset(lens, |items|, chunk, n - 1), Offset(lens, |items|, chunk, n));
    }
  }

  /** If the slots get back what they lost, and that is all there is, nothing is left over. */
  lemma RefillsTakesAll<T(!new), K>(g: T -> K, lens: seq<nat>, items: seq<T>, chunk: nat, lost: seq<seq<T>>)
    requires Refills(g, lens, items, chunk, lost) && Bag(g, items) == ColumnBag(g, lost)
    ensures Offset(lens, |items|, chunk, |lens|) == |items|
  {
    var slices, e := Slices(lens, items, chunk), Offset(lens, |items|, chunk, |lens|);
    hide Slice, Bag, ColumnBag, Offset;
    SlicesBag(g, lens, items, chunk, |lens|);
    assert slices[..|lens|] == slices;
    ColumnBagPointwise(g, slices, lost);
    BagSize(g, items[..e]);
    BagSize(g, items);
  }

  lemma RefillsSize<T(!new), K>(g: T -> K, lens: seq<nat>, items: seq<T>, chunk: nat, lost: seq<seq<T>>, j: nat)
    requires Refills(g, lens, items, chunk, lost) && j < |lens|
    ensures |Slice(lens, items, chunk, j)| == |lost[j]|
  {
    hide Slice, Bag;
    BagSize(g, Slice(lens, items, chunk, j));
    BagSize(g, lost[j]);
  }

  /** An object that gets back what it lost has room for it. */
  lemma RefillsFits<T(!new), K>(g: T -> K, lens: seq<nat>, items: seq<T>, chunk: nat, lost: seq<seq<T>>, j: nat)
    requires Refills(g, lens, items, chunk, lost) && j < |lens| && lost[j] != []
    ensures lens[j] + |lost[j]| <= chunk
  {
    RefillsSize(g, lens, items, chunk, lost, j);
    hide Bag;
  }

  lemma {:induction false} OffsetWithin<T>(lens: seq<nat>, items: seq<T>, chunk: nat, n: nat)
    requires n <= |lens| && forall j :: 0 <= j < n ==> Slice(lens, items, chunk, j) == []
    ensures Offset(lens, |items|, chunk, n) == 0
  {
    hide Slice;
    if n > 0 {
      OffsetWithin(lens, items, chunk, n - 1);
      SliceDef(lens, items, chunk, n - 1);
    }
  }

  /** If one object lost everything, no earlier object has room. */
  lemma RefillsBefore<T(!new), K>(g: T -> K, lens: seq<nat>, items: seq<T>, chunk: nat, lost: seq<seq<T>>, m: nat, t: nat)
    requires Refills(g, lens, items, chunk, lost) && m < t < |lens| == |lost|
    requires lost[t] != [] && forall j :: 0 <= j < |lost| && j != t ==> lost[j] == []
    ensures lens[m] >= chunk
  {
    hide Slice, Bag, Refills, Offset;
    forall j: nat | j < |lens| ensures |Slice(lens, items, chunk, j)| == |lost[j]| {
      RefillsSize(g, lens, items, chunk, lost, j);
    }
    OffsetWithin(lens, items, chunk, m);
    OffsetMonotone(lens, |items|, chunk, m, t);
    SliceDef(lens, items, chunk, m);
    SliceDef(lens, items, chunk, t);
  }

  /** The object gets everything back when it has room and no earlier object has. */
  lemma RefillsOne<T(!new), K>(g: T -> K, lens: seq<nat>, items: seq<T>, chunk: nat, lost: seq<seq<T>>, t: nat)
    requires t < |lens| == |lost| && Bag(g, items) == ColumnBag(g, lost)
    requires forall j :: 0 <= j < |lost| && j != t ==> lost[j] == []
    requires forall j :: 0 <= j < t ==> lens[j] >= chunk
    requires lens[t] + |lost[t]| <= chunk
    ensures Refills(g, lens, items, chunk, lost)
  {
    LonelyColumn(g, lost, t);
    BagSize(g, items);
    BagSize(g, lost[t]);
    hide Bag, ColumnBag, Slice, Offset;
    forall j: nat | j < |lens| ensures Bag(g, Slice(lens, items, chunk, j)) == Bag(g, lost[j]) {
      SliceOfOne(lens, items, chunk, t, j);
    }
  }

  lemma SliceOfOne<T>(lens: seq<nat>, items: seq<T>, chunk: nat, t: nat, j: nat)
    requires t < |lens| && j < |lens|
    requires forall k :: 0 <= k < t ==> lens[k] >= chunk
    requires lens[t] + |items| <= chunk
    ensures Slice(lens, items, chunk, j) == if j == t then items else []
  {
    hide Slice, Offset;
    SliceDef(lens, items, chunk, j);
    SliceDef(lens, items, chunk, t);
    FullBefore(lens, |items|, chunk, t);
    if j < t {
      OffsetMonotone(lens, |items|, chunk, j, j + 1);
      OffsetMonotone(lens, |items|, chunk, j + 1, t);
    } else if j > t {
      OffsetMonotone(lens, |items|, chunk, t + 1, j);
    }
  }

  lemma {:induction false} FullBefore(lens: seq<nat>, total: nat, chunk: nat, n: nat)
    requires n <= |lens| && forall j :: 0 <= j < n ==> lens[j] >= chunk
    ensures Offset(lens, total, chunk, n) == 0
  {
    if n > 0 {
      FullBefore(lens, total, chunk, n - 1);
    }
  }

  lemma {:induction false} LonelyColumn<T, K>(g: T -> K, cols: seq<seq<T>>, t: nat)
    requires t < |cols| && forall j :: 0 <= j < |cols| && j != t ==> cols[j] == []
    ensures ColumnBag(g, cols) == Bag(g, cols[t])
  {
    var init, last := cols[..|cols| - 1], cols[|cols| - 1];
    BagEmpty(g);
    if t == |cols| - 1 {
      ColumnBagEmpty(g, init);
    } else {
      LonelyColumn(g, init, t);
    }
  }

  lemma RefillsNone<T(!new), K>(g: T -> K, lens: seq<nat>, items: seq<T>, chunk: nat, lost: seq<seq<T>>)
    requires |lens| == |lost| && Bag(g, items) == ColumnBag(g, lost)
    requires forall j :: 0 <= j < |lost| ==> lost[j] == []
    ensures Refills(g, lens, items, chunk, lost)
  {
    ColumnBagEmpty(g, lost);
    BagSize(g, items);
    forall j: nat | j < |lens| ensures Slice(lens, items, chunk, j) == [] {
      SliceDef(lens, items, chunk, j);
    }
    hide Bag, Slice;
  }

  /** The items with two of them exchanged. */
  function Swapped<T>(items: seq<T>, p: nat, q: nat): seq<T>
    requires p < |items| && q < |items|
  {
    items[p := items[q]][q := items[p]]
  }

  lemma LostPosition<T(!new), K>(g: T -> K, lens: seq<nat>, items: seq<T>, chunk: nat, lost: seq<seq<T>>, t: nat) returns (p: nat)
    requires Refills(g, lens, items, chunk, lost) && t < |lens| && lost[t] != []
    ensures Offset(lens, |items|, chunk, t) <= p < Offset(lens, |items|, chunk, t + 1) <= |items|
  {
    RefillsSize(g, lens, items, chunk, lost, t);
    SliceDef(lens, items, chunk, t);
    p := Offset(lens, |items|, chunk, t);
  }

  lemma OutsideRange<T(!new), K>(g: T -> K, items: seq<T>, o: nat, e: nat, q: nat)
    requires o <= e <= q < |items|
    requires forall i, j :: 0 <= i < j < |items| ==> g(items[i]) != g(items[j])
    ensures g(items[q]) !in Bag(g, items[o..e])
  {
    BagMembers(g, items[o..e], g(items[q]));
    hide Bag;
    forall x | x in items[o..e] ensures g(x) != g(items[q]) {
      var i :| 0 <= i < e - o && items[o..e][i] == x;
      assert items[o + i] == x;
    }
  }

  lemma SwappedRange<T(!new), K>(g: T -> K, items: seq<T>, o: nat, e: nat, p: nat, q: nat)
    requires o <= p < e <= q < |items|
    ensures g(items[q]) in Bag(g, Swapped(items, p, q)[o..e])
  {
    var after := Swapped(items, p, q)[o..e];
    BagMembers(g, after, g(items[q]));
    hide Bag;
    assert after[p - o] == items[q];
  }

  /** If two objects lost entries, exchanging one entry of each breaks the refill. */
  lemma RefillsNotSwapped<T(!new), K>(
    g: T -> K, lens: seq<nat>, items: seq<T>, chunk: nat, lost: seq<seq<T>>, t: nat, u: nat, p: nat, q: nat)
    requires Refills(g, lens, items, chunk, lost) && t < u < |lens|
    requires Offset(lens, |items|, chunk, t) <= p < Offset(lens, |items|, chunk, t + 1)
    requires Offset(lens, |items|, chunk, u) <= q < Offset(lens, |items|, chunk, u + 1)
    requires forall i, j :: 0 <= i < j < |items| ==> g(items[i]) != g(items[j])
    ensures p < q < |items|
    ensures !Refills(g, lens, Swapped(items, p, q), chunk, lost)
  {
    hide *;
    OffsetMonotone(lens, |items|, chunk, t + 1, u);
    SliceDef(lens, items, chunk, t);
    SliceDef(lens, items, chunk, u);
    SwappedSize(items, p, q);
    SliceDef(lens, Swapped(items, p, q), chunk, t);
    var o, e := Offset(lens, |items|, chunk, t), Offset(lens, |items|, chunk, t + 1);
    OutsideRange(g, items, o, e, q);
    SwappedRange(g, items, o, e, p, q);
    RefillsApart(g, lens, items, Swapped(items, p, q), chunk, lost, t);
  }

  lemma SwappedSize<T>(items: seq<T>, p: nat, q: nat)
    requires p < |items| && q < |items|
    ensures |Swapped(items, p, q)| == |items|
  {
  }

  lemma RefillsApart<T(!new), K>(g: T -> K, lens: seq<nat>, a: seq<T>, b: seq<T>, chunk: nat, lost: seq<seq<T>>, t: nat)
    requires Refills(g, lens, a, chunk, lost) && t < |lens|
    requires Bag(g, Slice(lens, a, chunk, t)) != Bag(g, Slice(lens, b, chunk, t))
    ensures !Refills(g, lens, b, chunk, lost)
  {
    hide Bag, Slice;
  }
}
