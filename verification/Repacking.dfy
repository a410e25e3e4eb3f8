/** Packing again what is already placed: when nothing is left to place, the plan keeps every
    object. */
module Repacking {
  import opened Basics
  import opened PolicyInfo
  import opened Packing
  import opened Permutations
  import opened Purge
  import opened Reconciler
  import opened Placement

  // ---------------------------------------------------------------- nothing left to do

  lemma NothingLeft<T, K(!new)>(key: T -> K, cols: seq<seq<T>>, wanted: set<K>)
    requires ColumnBag(key, cols) == multiset(wanted)
    ensures Left(key, cols, wanted) == {}
  {
  }

  /** When every wanted key is held exactly once, every list is kept whole. */
  lemma KeptAll<T, K(!new)>(key: T -> K, cols: seq<seq<T>>, wanted: set<K>, i: nat)
    requires ColumnBag(key, cols) == multiset(wanted) && i < |cols|
    ensures Kept(key, cols[i], Left(key, cols[..i], wanted)) == cols[i]
  {
    hide ColumnBag, Bag, Kept;
    forall k | k in Bag(key, cols[i]) ensures k in Left(key, cols[..i], wanted) && Bag(key, cols[i])[k] == 1 {
      BagInColumn(key, cols, i, k);
    }
    KeptWhole(key, cols[i], Left(key, cols[..i], wanted));
  }

  lemma {:induction false} FilledNothing<O, T>(col: Column<O, T>, objs: seq<O>, chunk: nat, n: nat)
    requires n <= |objs|
    ensures Filled(col, objs, [], chunk, n) == objs[..n]
  {
    hide Slice, Lens, Append;
    if n > 0 {
      FilledNothing(col, objs, chunk, n - 1);
      FilledNext(col, objs, [], chunk, n - 1);
      SliceNothing<T>(Lens(col, objs), chunk, n - 1);
      assert objs[..n] == objs[..n - 1] + [objs[n - 1]];
    }
  }

  lemma SliceNothing<T>(lens: seq<nat>, chunk: nat, i: nat)
    requires i < |lens|
    ensures Slice<T>(lens, [], chunk, i) == []
  {
    hide Offset;
  }

  lemma PackNothing<O, T>(col: Column<O, T>, objs: seq<O>, chunk: nat, blank: O)
    requires chunk > 0
    ensures PackColumn(col, objs, [], chunk, blank) == objs
  {
    FilledNothing(col, objs, chunk, |objs|);
  }

  lemma PackAllNothing<H, R>(cfg: Config<H, R>, slots: seq<PolicyObject<H, R>>)
    requires cfg.chunk > 0
    ensures PackAll(cfg, slots, [], [], []) == slots
  {
    hide PackColumn;
    PackNothing(IngressColumn<H, R>(), slots, cfg.chunk, Blank(cfg));
    PackNothing(EgressColumn<H, R>(), slots, cfg.chunk, Blank(cfg));
    PackNothing(PodColumn<H, R>(), slots, cfg.chunk, Blank(cfg));
  }

  lemma {:induction false} AllLoaded<H, R>(objs: seq<PolicyObject<H, R>>)
    requires forall o | o in objs :: !IsBare(o)
    ensures Loaded(objs) == objs && Bare(objs) == []
  {
    hide *;
    if objs == [] {
      LoadedBareNone<H, R>();
    } else {
      var init, last := objs[..|objs| - 1], objs[|objs| - 1];
      AllLoaded(init);
      assert objs == init + [last];
      LoadedBareSnoc(init, last);
    }
  }

  lemma LoadedBareNone<H, R>()
    ensures Loaded<H, R>([]) == [] && Bare<H, R>([]) == []
  {
  }

  lemma ConcatParts<O>(a: seq<O>, b: seq<O>, c: seq<O>, x: seq<O>, y: seq<O>)
    requires a + b + c == x + y && |a| == |x| && |b| == |y|
    ensures a == x && b == y && c == []
  {
    assert |c| == 0;
    assert a == (a + b + c)[..|a|] && x == (x + y)[..|x|];
    assert b == (a + b + c)[|a|..|a| + |b|] && y == (x + y)[|x|..];
  }

  /** Every desired entry is already held exactly once. */
  ghost predicate FullyHeld<H, R>(cfg: Config<H, R>, existing: seq<PolicyObject<H, R>>, d: Desired<R>) {
    && ColumnBag(cfg.key, Ingresses(existing)) == multiset(d.ingress.Keys)
    && ColumnBag(cfg.key, Egresses(existing)) == multiset(d.egress.Keys)
    && ColumnBag(Itself<PodEndpoint>(), PodLists(existing)) == multiset(d.pods)
  }

  lemma PurgedWhole<H, R>(cfg: Config<H, R>, existing: seq<PolicyObject<H, R>>, d: Desired<R>, i: nat)
    requires FullyHeld(cfg, existing, d) && i < |existing|
    ensures PurgedObject(cfg, existing, d, i) == existing[i].(header := cfg.refresh(existing[i].header))
  {
    ColumnLengths(existing);
    hide Kept, Left, ColumnBag, Itself, Ingresses, Egresses, PodLists, PurgedObject;
    PurgedObjectFields(cfg, existing, d, i);
    KeptAll(cfg.key, Ingresses(existing), d.ingress.Keys, i);
    KeptAll(cfg.key, Egresses(existing), d.egress.Keys, i);
    KeptAll(Itself<PodEndpoint>(), PodLists(existing), d.pods, i);
  }

  lemma EmptyOrder<H, R>(cfg: Config<H, R>, existing: seq<PolicyObject<H, R>>, d: Desired<R>, order: Order)
    requires FullyHeld(cfg, existing, d) && ValidOrder(cfg, existing, d, order)
    ensures order == Order([], [], [])
  {
    hide ColumnBag, Itself, Ingresses, Egresses, PodLists, Left;
    NothingLeft(cfg.key, Ingresses(existing), d.ingress.Keys);
    NothingLeft(cfg.key, Egresses(existing), d.egress.Keys);
    NothingLeft(Itself<PodEndpoint>(), PodLists(existing), d.pods);
    ListsMembers(order.ingress, {});
    ListsMembers(order.egress, {});
    ListsMembers(order.pods, {});
  }

  /** Then the plan updates every object in place and creates and deletes nothing. */
  lemma PlanKeepsAll<H(!new), R(!new)>(cfg: Config<H, R>, existing: seq<PolicyObject<H, R>>, d: Desired<R>, order: Order)
    requires cfg.chunk > 0 && ValidOrder(cfg, existing, d, order) && FullyHeld(cfg, existing, d)
    requires |existing| == 1 || (existing != [] && forall o | o in existing :: !IsBare(o))
    ensures PlanFor(cfg, existing, d, order) == Plan([], PurgeAll(cfg, existing, d, |existing|), [])
  {
    hide *;
    var purged := PurgeAll(cfg, existing, d, |existing|);
    var packed, modified, candidates, created := PlanParts(cfg, existing, d, order);
    EmptyOrder(cfg, existing, d, order);
    LookupNothing(d.ingress);
    LookupNothing(d.egress);
    PackAllNothing(cfg, Slots(cfg, existing, d));
    SlotsDef(cfg, existing, d);
    ConcatParts(modified, candidates, created, Loaded(purged), Bare(purged));
    PurgedBareness(cfg, existing, d);
    FinishKeepsAll(cfg, purged);
  }

  lemma LookupNothing<R>(m: map<string, R>)
    ensures Lookup(m, []) == []
  {
  }

  lemma SlotsDef<H, R>(cfg: Config<H, R>, existing: seq<PolicyObject<H, R>>, d: Desired<R>)
    ensures Slots(cfg, existing, d) ==
            Loaded(PurgeAll(cfg, existing, d, |existing|)) + Bare(PurgeAll(cfg, existing, d, |existing|))
  {
  }

  lemma PurgedBareness<H(!new), R(!new)>(cfg: Config<H, R>, existing: seq<PolicyObject<H, R>>, d: Desired<R>)
    requires FullyHeld(cfg, existing, d)
    requires |existing| == 1 || (existing != [] && forall o | o in existing :: !IsBare(o))
    ensures var purged := PurgeAll(cfg, existing, d, |existing|);
            |purged| == 1 || (purged != [] && forall o | o in purged :: !IsBare(o))
  {
    var purged := PurgeAll(cfg, existing, d, |existing|);
    hide PurgeAll, FullyHeld, PurgedObject;
    forall o | o in purged ensures exists e :: e in existing && (IsBare(e) <==> IsBare(o)) {
      var i := SlotOrigin(cfg, existing, d, o);
      PurgedWhole(cfg, existing, d, i);
      assert existing[i] in existing;
    }
  }

  lemma FinishKeepsAll<H, R>(cfg: Config<H, R>, purged: seq<PolicyObject<H, R>>)
    requires |purged| == 1 || (purged != [] && forall o | o in purged :: !IsBare(o))
    ensures Finish(cfg, Loaded(purged), Bare(purged), []) == Plan([], purged, [])
  {
    hide Loaded, Bare, IsBare;
    LoadedBareNone<H, R>();
    if |purged| == 1 && IsBare(purged[0]) {
      assert purged == [] + [purged[0]];
      LoadedBareSnoc([], purged[0]);
    } else {
      AllLoaded(purged);
    }
  }
}
