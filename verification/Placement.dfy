/** What a computed plan guarantees, whatever objects existed before: every desired entry sits
    in exactly one surviving object, kept entries stay where they were, and what is deleted
    holds nothing. */
module Placement {
  import opened Basics
  import opened PolicyInfo
  import opened Packing
  import opened Purge
  import opened Reconciler

  ghost function Surviving<H, R>(p: Plan<H, R>): seq<PolicyObject<H, R>> { p.create + p.update }

  /** A field that a bare object has empty. */
  ghost predicate EmptyWhenBare<H(!new), R(!new), T(!new)>(col: Column<PolicyObject<H, R>, T>) {
    forall o :: IsBare(o) ==> col.get(o) == []
  }

  lemma MapSnoc<A, B>(f: A -> B, s: seq<A>, x: A)
    ensures Map(f, s + [x]) == Map(f, s) + [f(x)]
  {
  }

  lemma MapConcat<A, B>(f: A -> B, s: seq<A>, t: seq<A>)
    ensures Map(f, s + t) == Map(f, s) + Map(f, t)
  {
  }

  lemma ObjectBagSnoc<O, T, K>(col: Column<O, T>, key: T -> K, objs: seq<O>, o: O)
    ensures ColumnBag(key, Map(col.get, objs + [o])) == ColumnBag(key, Map(col.get, objs)) + Bag(key, col.get(o))
  {
    MapSnoc(col.get, objs, o);
    ColumnBagAppend(key, Map(col.get, objs), col.get(o));
  }

  lemma ObjectBagConcat<O, T, K>(col: Column<O, T>, key: T -> K, a: seq<O>, b: seq<O>)
    ensures ColumnBag(key, Map(col.get, a + b)) == ColumnBag(key, Map(col.get, a)) + ColumnBag(key, Map(col.get, b))
  {
    MapConcat(col.get, a, b);
    ColumnBagConcat(key, Map(col.get, a), Map(col.get, b));
  }

  lemma EmptyParts<K>(a: multiset<K>)
    ensures a + multiset{} == a && multiset{} + a == a
  {
  }

  /** Dropping the bare objects loses no entry. */
  lemma {:induction false} LoadedBag<H(!new), R(!new), T(!new), K>(
    col: Column<PolicyObject<H, R>, T>, key: T -> K, objs: seq<PolicyObject<H, R>>)
    requires EmptyWhenBare(col)
    ensures ColumnBag(key, Map(col.get, Loaded(objs))) == ColumnBag(key, Map(col.get, objs))
  {
    hide *;
    if objs == [] {
      LoadedNone<H, R>();
    } else {
      var init, last := objs[..|objs| - 1], objs[|objs| - 1];
      LoadedBag(col, key, init);
      assert objs == init + [last];
      LoadedBareSnoc(init, last);
      ObjectBagSnoc(col, key, init, last);
      ObjectBagSnoc(col, key, Loaded(init), last);
      BareListBag(col, key, last);
      EmptyParts(ColumnBag(key, Map(col.get, init)));
      assert Loaded(init) + [] == Loaded(init);
    }
  }

  lemma LoadedNone<H, R>()
    ensures Loaded<H, R>([]) == []
  {
  }

  lemma BareListBag<H(!new), R(!new), T(!new), K>(
    col: Column<PolicyObject<H, R>, T>, key: T -> K, o: PolicyObject<H, R>)
    requires EmptyWhenBare(col)
    ensures IsBare(o) ==> Bag(key, col.get(o)) == multiset{}
  {
    BagEmpty(key);
  }

  lemma BareBag<H(!new), R(!new), T(!new), K>(
    col: Column<PolicyObject<H, R>, T>, key: T -> K, objs: seq<PolicyObject<H, R>>)
    requires EmptyWhenBare(col)
    requires forall o | o in objs :: IsBare(o)
    ensures ColumnBag(key, Map(col.get, objs)) == multiset{}
  {
    ColumnBagEmpty(key, Map(col.get, objs));
  }

  /** The survivors hold exactly what the packed objects hold. */
  lemma FinishBag<H(!new), R(!new), T(!new), K>(
    col: Column<PolicyObject<H, R>, T>, key: T -> K, cfg: Config<H, R>, modified: seq<PolicyObject<H, R>>,
    candidates: seq<PolicyObject<H, R>>, created: seq<PolicyObject<H, R>>)
    requires EmptyWhenBare(col)
    ensures ColumnBag(key, Map(col.get, Surviving(Finish(cfg, modified, candidates, created)))) ==
            ColumnBag(key, Map(col.get, modified + candidates + created))
  {
    var plan := Finish(cfg, modified, candidates, created);
    var loaded := Loaded(candidates);
    if created == [] && loaded + modified == [] {
      assert forall o | o in Surviving(plan) :: IsBare(o);
      assert forall o | o in modified + candidates + created :: IsBare(o);
      BareBag(col, key, Surviving(plan));
      BareBag(col, key, modified + candidates + created);
    } else {
      assert Surviving(plan) == created + (loaded + modified);
      hide *;
      LoadedBag(col, key, candidates);
      ObjectBagConcat(col, key, created, loaded + modified);
      ObjectBagConcat(col, key, loaded, modified);
      ObjectBagConcat(col, key, modified + candidates, created);
      ObjectBagConcat(col, key, modified, candidates);
      Commute3(ColumnBag(key, Map(col.get, created)), ColumnBag(key, Map(col.get, candidates)),
        ColumnBag(key, Map(col.get, modified)));
    }
  }

  lemma Commute3<K>(a: multiset<K>, b: multiset<K>, c: multiset<K>)
    ensures a + (b + c) == (c + b) + a
  {
  }

  lemma SlotsBag<H(!new), R(!new), T(!new), K>(
    col: Column<PolicyObject<H, R>, T>, key: T -> K, purged: seq<PolicyObject<H, R>>)
    requires EmptyWhenBare(col)
    ensures ColumnBag(key, Map(col.get, Loaded(purged) + Bare(purged))) == ColumnBag(key, Map(col.get, purged))
  {
    ObjectBagConcat(col, key, Loaded(purged), Bare(purged));
    LoadedBag(col, key, purged);
    BareBag(col, key, Bare(purged));
  }

  // ---------------------------------------------------------------- columns of the purged objects

  lemma {:induction false} PurgedIngresses<H, R>(cfg: Config<H, R>, objs: seq<PolicyObject<H, R>>, d: Desired<R>, n: nat)
    requires n <= |objs|
    ensures Ingresses(PurgeAll(cfg, objs, d, n)) == KeptLists(cfg.key, Ingresses(objs), d.ingress.Keys, n)
    ensures Egresses(PurgeAll(cfg, objs, d, n)) == KeptLists(cfg.key, Egresses(objs), d.egress.Keys, n)
    ensures PodLists(PurgeAll(cfg, objs, d, n)) == KeptLists(Itself<PodEndpoint>(), PodLists(objs), d.pods, n)
  {
    if n > 0 {
      PurgedIngresses(cfg, objs, d, n - 1);
      PurgedObjectFields(cfg, objs, d, n - 1);
      hide Kept, Left, Itself;
      var before, o := PurgeAll(cfg, objs, d, n - 1), PurgedObject(cfg, objs, d, n - 1);
      MapSnoc(IngressColumn<H, R>().get, before, o);
      MapSnoc(EgressColumn<H, R>().get, before, o);
      MapSnoc(PodColumn<H, R>().get, before, o);
    }
  }

  /** The map of desired rules is keyed by the rules' own keys. */
  ghost predicate WellKeyed<R>(key: R -> string, m: map<string, R>) {
    forall k | k in m :: key(m[k]) == k
  }

  lemma LookupBag<R>(key: R -> string, m: map<string, R>, order: seq<string>)
    requires WellKeyed(key, m)
    requires forall k | k in order :: k in m
    ensures Bag(key, Lookup(m, order)) == multiset(order)
  {
    assert Map(key, Lookup(m, order)) == order;
  }

  lemma PodOrderBag(order: seq<PodEndpoint>)
    ensures Bag(Itself<PodEndpoint>(), order) == multiset(order)
  {
    assert Map(Itself<PodEndpoint>(), order) == order;
  }

  lemma BareColumns<H(!new), R(!new)>()
    ensures EmptyWhenBare(IngressColumn<H, R>()) && EmptyWhenBare(EgressColumn<H, R>()) && EmptyWhenBare(PodColumn<H, R>())
  {
  }

  lemma PaddedBag<T, K>(key: T -> K, before: seq<seq<T>>, after: seq<seq<T>>)
    requires |before| <= |after|
    requires forall i :: 0 <= i < |after| ==> after[i] == if i < |before| then before[i] else []
    ensures ColumnBag(key, after) == ColumnBag(key, before)
  {
    var rest := after[|before|..];
    assert after == before + rest;
    ColumnBagConcat(key, before, rest);
    ColumnBagEmpty(key, rest);
  }

  lemma ElsewhereBags<H, R>(
    key: R -> string, before: seq<PolicyObject<H, R>>, after: seq<PolicyObject<H, R>>, blank: PolicyObject<H, R>,
    ingress: bool, egress: bool, pods: bool)
    requires KeptElsewhere(before, after, blank, ingress, egress, pods) && IsBare(blank)
    ensures !ingress ==> ColumnBag(key, Ingresses(after)) == ColumnBag(key, Ingresses(before))
    ensures !egress ==> ColumnBag(key, Egresses(after)) == ColumnBag(key, Egresses(before))
    ensures !pods ==> ColumnBag(Itself<PodEndpoint>(), PodLists(after)) == ColumnBag(Itself<PodEndpoint>(), PodLists(before))
  {
    hide Itself;
    if !ingress { PaddedBag(key, Ingresses(before), Ingresses(after)); }
    if !egress { PaddedBag(key, Egresses(before), Egresses(after)); }
    if !pods { PaddedBag(Itself<PodEndpoint>(), PodLists(before), PodLists(after)); }
  }

  /** What the packed objects hold in each field. */
  lemma PackAllBags<H(!new), R(!new)>(
    cfg: Config<H, R>, slots: seq<PolicyObject<H, R>>, ingress: seq<R>, egress: seq<R>, pods: seq<PodEndpoint>)
    requires cfg.chunk > 0
    ensures var packed := PackAll(cfg, slots, ingress, egress, pods);
            && ColumnBag(cfg.key, Ingresses(packed)) == ColumnBag(cfg.key, Ingresses(slots)) + Bag(cfg.key, ingress)
            && ColumnBag(cfg.key, Egresses(packed)) == ColumnBag(cfg.key, Egresses(slots)) + Bag(cfg.key, egress)
            && ColumnBag(Itself<PodEndpoint>(), PodLists(packed)) == ColumnBag(Itself<PodEndpoint>(), PodLists(slots)) + Bag(Itself<PodEndpoint>(), pods)
  {
    var blank, chunk := Blank(cfg), cfg.chunk;
    var packed1 := PackColumn(IngressColumn(), slots, ingress, chunk, blank);
    var packed2 := PackColumn(EgressColumn(), packed1, egress, chunk, blank);
    var packed3 := PackColumn(PodColumn(), packed2, pods, chunk, blank);
    hide PackColumn, Itself, KeptElsewhere, IngressColumn, EgressColumn, PodColumn, ColumnBag, Bag, Lawful;
    ColumnLaws<H, R>();
    PackConserves(IngressColumn(), cfg.key, slots, ingress, chunk, blank);
    PackConserves(EgressColumn(), cfg.key, packed1, egress, chunk, blank);
    PackConserves(PodColumn(), Itself<PodEndpoint>(), packed2, pods, chunk, blank);
    PackIngressKeeps(slots, ingress, chunk, blank);
    PackEgressKeeps(packed1, egress, chunk, blank);
    PackPodsKeeps(packed2, pods, chunk, blank);
    ElsewhereBags(cfg.key, slots, packed1, blank, true, false, false);
    ElsewhereBags(cfg.key, packed1, packed2, blank, false, true, false);
    ElsewhereBags(cfg.key, packed2, packed3, blank, false, false, true);
  }

  /** The packed objects behind a plan, in their three groups. */
  lemma PlanParts<H, R>(cfg: Config<H, R>, existing: seq<PolicyObject<H, R>>, d: Desired<R>, order: Order)
    returns (packed: seq<PolicyObject<H, R>>, modified: seq<PolicyObject<H, R>>,
             candidates: seq<PolicyObject<H, R>>, created: seq<PolicyObject<H, R>>)
    requires cfg.chunk > 0 && ValidOrder(cfg, existing, d, order)
    ensures (forall k | k in order.ingress :: k in d.ingress) && (forall k | k in order.egress :: k in d.egress)
    ensures packed == PackAll(cfg, Slots(cfg, existing, d), Lookup(d.ingress, order.ingress), Lookup(d.egress, order.egress), order.pods)
    ensures packed == modified + candidates + created
    ensures |modified| == |Loaded(PurgeAll(cfg, existing, d, |existing|))|
    ensures |candidates| == |Bare(PurgeAll(cfg, existing, d, |existing|))|
    ensures PlanFor(cfg, existing, d, order) == Finish(cfg, modified, candidates, created)
  {
    hide PackAll, Finish, PurgeAll, ValidOrder, Loaded, Bare;
    OrderInMap(cfg, existing, d, order);
    var slots := Slots(cfg, existing, d);
    var m := |Loaded(PurgeAll(cfg, existing, d, |existing|))|;
    packed := PackAll(cfg, slots, Lookup(d.ingress, order.ingress), Lookup(d.egress, order.egress), order.pods);
    PackAllGrows(cfg, slots, Lookup(d.ingress, order.ingress), Lookup(d.egress, order.egress), order.pods);
    modified, candidates, created := packed[..m], packed[m..|slots|], packed[|slots|..];
  }

  /** Every desired rule and pod sits in exactly one surviving object, exactly once, and no
      surviving object holds anything else: for all existing objects, stale, duplicated,
      over-full or partial, and for every order in which the maps are visited. */
  lemma ExactlyOnce<H(!new), R(!new)>(cfg: Config<H, R>, existing: seq<PolicyObject<H, R>>, d: Desired<R>, order: Order)
    requires cfg.chunk > 0 && ValidOrder(cfg, existing, d, order)
    requires WellKeyed(cfg.key, d.ingress) && WellKeyed(cfg.key, d.egress)
    ensures var survivors := Surviving(PlanFor(cfg, existing, d, order));
            && ColumnBag(cfg.key, Ingresses(survivors)) == multiset(d.ingress.Keys)
            && ColumnBag(cfg.key, Egresses(survivors)) == multiset(d.egress.Keys)
            && ColumnBag(Itself<PodEndpoint>(), PodLists(survivors)) == multiset(d.pods)
  {
    var packed, modified, candidates, created := PlanParts(cfg, existing, d, order);
    var purged := PurgeAll(cfg, existing, d, |existing|);
    ColumnLengths(existing);
    hide PackAll, PlanFor, Finish, PurgeAll, Loaded, Bare, Itself, Left;
    PackAllBags(cfg, Slots(cfg, existing, d), Lookup(d.ingress, order.ingress), Lookup(d.egress, order.egress), order.pods);
    LookupBag(cfg.key, d.ingress, order.ingress);
    LookupBag(cfg.key, d.egress, order.egress);
    PodOrderBag(order.pods);
    PurgedIngresses(cfg, existing, d, |existing|);
    BareColumns<H, R>();
    SlotsBag(IngressColumn(), cfg.key, purged);
    SlotsBag(EgressColumn(), cfg.key, purged);
    SlotsBag(PodColumn(), Itself<PodEndpoint>(), purged);
    KeptAndLeft(cfg.key, Ingresses(existing), d.ingress.Keys, order.ingress);
    KeptAndLeft(cfg.key, Egresses(existing), d.egress.Keys, order.egress);
    KeptAndLeft(Itself<PodEndpoint>(), PodLists(existing), d.pods, order.pods);
    FinishBag(IngressColumn(), cfg.key, cfg, modified, candidates, created);
    FinishBag(EgressColumn(), cfg.key, cfg, modified, candidates, created);
    FinishBag(PodColumn(), Itself<PodEndpoint>(), cfg, modified, candidates, created);
  }

  // ---------------------------------------------------------------- staying in place

  /** `after` is `before` with entries appended, each list within the chunk size unless it was
      longer to begin with. */
  ghost predicate Grown<H, R>(before: PolicyObject<H, R>, after: PolicyObject<H, R>, chunk: nat) {
    && after.name == before.name && after.header == before.header
    && before.ingress <= after.ingress && |after.ingress| <= Max(chunk, |before.ingress|)
    && before.egress <= after.egress && |after.egress| <= Max(chunk, |before.egress|)
    && before.pods <= after.pods && |after.pods| <= Max(chunk, |before.pods|)
  }

  ghost predicate NewObject<H, R>(cfg: Config<H, R>, o: PolicyObject<H, R>) {
    && o.name == "" && o.header == cfg.header && !IsBare(o)
    && |o.ingress| <= cfg.chunk && |o.egress| <= cfg.chunk && |o.pods| <= cfg.chunk
  }

  /** One pass grows the old objects and makes the new ones non-empty. */
  ghost predicate PassShape<H, R>(cfg: Config<H, R>, before: seq<PolicyObject<H, R>>, after: seq<PolicyObject<H, R>>) {
    && |before| <= |after|
    && (forall i :: 0 <= i < |before| ==> Grown(before[i], after[i], cfg.chunk))
    && (forall i :: |before| <= i < |after| ==> NewObject(cfg, after[i]))
  }

  lemma IngressPass<H(!new), R(!new)>(cfg: Config<H, R>, objs: seq<PolicyObject<H, R>>, items: seq<R>)
    requires cfg.chunk > 0
    ensures PassShape(cfg, objs, PackColumn(IngressColumn(), objs, items, cfg.chunk, Blank(cfg)))
  {
    hide PackColumn;
    ColumnLaws<H, R>();
    PackIngressKeeps(objs, items, cfg.chunk, Blank(cfg));
    forall i: nat | i < |PackColumn(IngressColumn(), objs, items, cfg.chunk, Blank(cfg))| {
      PackBounds(IngressColumn(), objs, items, cfg.chunk, Blank(cfg), i);
    }
  }

  lemma EgressPass<H(!new), R(!new)>(cfg: Config<H, R>, objs: seq<PolicyObject<H, R>>, items: seq<R>)
    requires cfg.chunk > 0
    ensures PassShape(cfg, objs, PackColumn(EgressColumn(), objs, items, cfg.chunk, Blank(cfg)))
  {
    hide PackColumn;
    ColumnLaws<H, R>();
    PackEgressKeeps(objs, items, cfg.chunk, Blank(cfg));
    forall i: nat | i < |PackColumn(EgressColumn(), objs, items, cfg.chunk, Blank(cfg))| {
      PackBounds(EgressColumn(), objs, items, cfg.chunk, Blank(cfg), i);
    }
  }

  lemma PodsPass<H(!new), R(!new)>(cfg: Config<H, R>, objs: seq<PolicyObject<H, R>>, items: seq<PodEndpoint>)
    requires cfg.chunk > 0
    ensures PassShape(cfg, objs, PackColumn(PodColumn(), objs, items, cfg.chunk, Blank(cfg)))
  {
    hide PackColumn;
    ColumnLaws<H, R>();
    PackPodsKeeps(objs, items, cfg.chunk, Blank(cfg));
    forall i: nat | i < |PackColumn(PodColumn(), objs, items, cfg.chunk, Blank(cfg))| {
      PackBounds(PodColumn(), objs, items, cfg.chunk, Blank(cfg), i);
    }
  }

  lemma GrownTwice<H, R>(a: PolicyObject<H, R>, b: PolicyObject<H, R>, c: PolicyObject<H, R>, chunk: nat)
    requires Grown(a, b, chunk) && Grown(b, c, chunk)
    ensures Grown(a, c, chunk)
  {
  }

  lemma PassTwice<H, R>(
    cfg: Config<H, R>, a: seq<PolicyObject<H, R>>, b: seq<PolicyObject<H, R>>, c: seq<PolicyObject<H, R>>)
    requires PassShape(cfg, a, b) && PassShape(cfg, b, c)
    ensures PassShape(cfg, a, c)
  {
    forall i | 0 <= i < |a| ensures Grown(a[i], c[i], cfg.chunk) {
      GrownTwice(a[i], b[i], c[i], cfg.chunk);
    }
    forall i | |a| <= i < |c| ensures NewObject(cfg, c[i]) {
      if i < |b| {
        assert NewObject(cfg, b[i]) && Grown(b[i], c[i], cfg.chunk);
      }
    }
  }

  lemma PackAllShape<H(!new), R(!new)>(
    cfg: Config<H, R>, slots: seq<PolicyObject<H, R>>, ingress: seq<R>, egress: seq<R>, pods: seq<PodEndpoint>)
    requires cfg.chunk > 0
    ensures PassShape(cfg, slots, PackAll(cfg, slots, ingress, egress, pods))
  {
    var packed1 := PackColumn(IngressColumn(), slots, ingress, cfg.chunk, Blank(cfg));
    var packed2 := PackColumn(EgressColumn(), packed1, egress, cfg.chunk, Blank(cfg));
    hide PackColumn, PassShape;
    IngressPass(cfg, slots, ingress);
    EgressPass(cfg, packed1, egress);
    PodsPass(cfg, packed2, pods);
    PassTwice(cfg, slots, packed1, packed2);
    PassTwice(cfg, slots, packed2, PackAll(cfg, slots, ingress, egress, pods));
  }

  /** Which existing object a slot comes from. */
  lemma SlotOrigin<H, R>(cfg: Config<H, R>, existing: seq<PolicyObject<H, R>>, d: Desired<R>, o: PolicyObject<H, R>)
    returns (i: nat)
    requires o in PurgeAll(cfg, existing, d, |existing|)
    ensures i < |existing| && o == PurgedObject(cfg, existing, d, i)
  {
    var purged := PurgeAll(cfg, existing, d, |existing|);
    i :| i < |purged| && purged[i] == o;
    PurgeAllAt(cfg, existing, d, |existing|, i);
  }

  lemma SlotMember<H, R>(cfg: Config<H, R>, existing: seq<PolicyObject<H, R>>, d: Desired<R>, j: nat)
    requires j < |Slots(cfg, existing, d)|
    ensures Slots(cfg, existing, d)[j] in PurgeAll(cfg, existing, d, |existing|)
  {
    hide PurgeAll;
    assert Slots(cfg, existing, d)[j] in Slots(cfg, existing, d);
  }

  lemma IndexInParts<O>(a: seq<O>, b: seq<O>, c: seq<O>, x: O) returns (j: nat)
    requires x in a || x in b
    ensures j < |a| + |b| && (a + b + c)[j] == x
  {
    if x in a {
      j :| j < |a| && a[j] == x;
    } else {
      var i: nat :| i < |b| && b[i] == x;
      j := |a| + i;
    }
  }

  lemma FinishMembers<H, R>(
    cfg: Config<H, R>, modified: seq<PolicyObject<H, R>>,
    candidates: seq<PolicyObject<H, R>>, created: seq<PolicyObject<H, R>>, u: PolicyObject<H, R>)
    requires u in Finish(cfg, modified, candidates, created).update || u in Finish(cfg, modified, candidates, created).delete
    ensures u in modified || u in candidates
  {
  }

  /** Every updated object is an existing one with its stale entries removed, its header
      brought up to date and new entries appended. */
  lemma UpdateOrigin<H(!new), R(!new)>(
    cfg: Config<H, R>, existing: seq<PolicyObject<H, R>>, d: Desired<R>, order: Order, u: PolicyObject<H, R>)
    returns (i: nat)
    requires cfg.chunk > 0 && ValidOrder(cfg, existing, d, order)
    requires u in PlanFor(cfg, existing, d, order).update || u in PlanFor(cfg, existing, d, order).delete
    ensures i < |existing| && Grown(PurgedObject(cfg, existing, d, i), u, cfg.chunk)
  {
    var packed, modified, candidates, created := PlanParts(cfg, existing, d, order);
    var slots := Slots(cfg, existing, d);
    PackAllShape(cfg, slots, Lookup(d.ingress, order.ingress), Lookup(d.egress, order.egress), order.pods);
    FinishMembers(cfg, modified, candidates, created, u);
    assert |slots| == |modified| + |candidates|;
    hide PackAll, PlanFor, PurgeAll, PurgedObject, Grown, NewObject, IsBare, Finish, Slots, Loaded, Bare, ValidOrder;
    var j := IndexInParts(modified, candidates, created, u);
    SlotMember(cfg, existing, d, j);
    i := SlotOrigin(cfg, existing, d, slots[j]);
  }

  /** Every existing object that keeps an entry is updated, with its kept entries in front. */
  lemma KeptIsUpdated<H(!new), R(!new)>(
    cfg: Config<H, R>, existing: seq<PolicyObject<H, R>>, d: Desired<R>, order: Order, i: nat)
    returns (u: PolicyObject<H, R>)
    requires cfg.chunk > 0 && ValidOrder(cfg, existing, d, order)
    requires i < |existing| && !IsBare(PurgedObject(cfg, existing, d, i))
    ensures u in PlanFor(cfg, existing, d, order).update
    ensures Grown(PurgedObject(cfg, existing, d, i), u, cfg.chunk)
  {
    var packed, modified, candidates, created := PlanParts(cfg, existing, d, order);
    var slots, purged := Slots(cfg, existing, d), PurgeAll(cfg, existing, d, |existing|);
    PackAllShape(cfg, slots, Lookup(d.ingress, order.ingress), Lookup(d.egress, order.egress), order.pods);
    PurgeAllAt(cfg, existing, d, |existing|, i);
    hide PackAll, PlanFor, PurgeAll, PurgedObject, Grown, NewObject, IsBare;
    assert purged[i] in purged && purged[i] in Loaded(purged);
    var j :| 0 <= j < |Loaded(purged)| && Loaded(purged)[j] == purged[i];
    u := packed[j];
    assert slots[j] == purged[i] && modified[j] == u;
    assert u in modified;
  }

  /** Deleted objects hold nothing, neither kept nor new; a new object is never empty unless it
      is the only survivor; at least one object survives. */
  lemma PlanShape<H(!new), R(!new)>(cfg: Config<H, R>, existing: seq<PolicyObject<H, R>>, d: Desired<R>, order: Order)
    requires cfg.chunk > 0 && ValidOrder(cfg, existing, d, order)
    ensures var plan := PlanFor(cfg, existing, d, order);
            && (forall o | o in plan.delete :: IsBare(o))
            && |Surviving(plan)| >= 1
            && (|Surviving(plan)| > 1 ==> forall o | o in Surviving(plan) :: !IsBare(o))
            && (forall o | o in plan.create :: o.name == "" && o.header == cfg.header
                                               && |o.ingress| <= cfg.chunk && |o.egress| <= cfg.chunk && |o.pods| <= cfg.chunk)
  {
    var packed, modified, candidates, created := PlanParts(cfg, existing, d, order);
    var slots, purged := Slots(cfg, existing, d), PurgeAll(cfg, existing, d, |existing|);
    PackAllShape(cfg, slots, Lookup(d.ingress, order.ingress), Lookup(d.egress, order.egress), order.pods);
    hide PackAll, PlanFor, PurgeAll, Finish, IsBare, NewObject, Grown;
    forall o | o in created ensures NewObject(cfg, o) {
      var j :| 0 <= j < |created| && created[j] == o;
      assert packed[|slots| + j] == o;
    }
    forall o | o in modified ensures !IsBare(o) {
      var j :| 0 <= j < |modified| && modified[j] == o;
      assert packed[j] == o && slots[j] == Loaded(purged)[j];
      GrownStaysLoaded(slots[j], packed[j], cfg.chunk);
    }
    FinishShape(cfg, modified, candidates, created);
  }

  lemma GrownStaysLoaded<H, R>(before: PolicyObject<H, R>, after: PolicyObject<H, R>, chunk: nat)
    requires Grown(before, after, chunk) && !IsBare(before)
    ensures !IsBare(after)
  {
  }

  lemma FinishShape<H, R>(
    cfg: Config<H, R>, modified: seq<PolicyObject<H, R>>,
    candidates: seq<PolicyObject<H, R>>, created: seq<PolicyObject<H, R>>)
    requires forall o | o in created :: NewObject(cfg, o)
    requires forall o | o in modified :: !IsBare(o)
    ensures var plan := Finish(cfg, modified, candidates, created);
            && (forall o | o in plan.delete :: IsBare(o))
            && |Surviving(plan)| >= 1
            && (|Surviving(plan)| > 1 ==> forall o | o in Surviving(plan) :: !IsBare(o))
            && (forall o | o in plan.create :: o.name == "" && o.header == cfg.header
                                               && |o.ingress| <= cfg.chunk && |o.egress| <= cfg.chunk && |o.pods| <= cfg.chunk)
  {
  }

  /** Updates and deletes partition the existing objects. */
  lemma PlanNames<H(!new), R(!new)>(cfg: Config<H, R>, existing: seq<PolicyObject<H, R>>, d: Desired<R>, order: Order)
    requires cfg.chunk > 0 && ValidOrder(cfg, existing, d, order)
    ensures Names(PlanFor(cfg, existing, d, order).update) + Names(PlanFor(cfg, existing, d, order).delete) == Names(existing)
  {
    var packed, modified, candidates, created := PlanParts(cfg, existing, d, order);
    var slots, name := Slots(cfg, existing, d), NameColumn<H, R>();
    PackAllShape(cfg, slots, Lookup(d.ingress, order.ingress), Lookup(d.egress, order.egress), order.pods);
    SlotNames(cfg, existing, d);
    var previous := modified + candidates;
    assert Names(previous) == Names(slots) by {
      forall j | 0 <= j < |slots| ensures previous[j].name == slots[j].name {
        assert packed[j] == previous[j];
        assert Grown(slots[j], packed[j], cfg.chunk);
      }
      assert Map(name, previous) == Map(name, slots);
    }
    SplitNames(candidates);
    FinishNames(cfg, modified, candidates, created);
    BagConcat(name, modified, candidates);
    hide Finish, PackAll, PurgeAll, Slots, Loaded, Bare, PlanFor;
    Commute3(Bag(name, modified), Bag(name, Bare(candidates)), Bag(name, Loaded(candidates)));
  }

  lemma FinishNames<H, R>(
    cfg: Config<H, R>, modified: seq<PolicyObject<H, R>>,
    candidates: seq<PolicyObject<H, R>>, created: seq<PolicyObject<H, R>>)
    ensures var plan := Finish(cfg, modified, candidates, created);
            Names(plan.update) + Names(plan.delete) == Names(Loaded(candidates)) + Names(modified) + Names(Bare(candidates))
  {
    var plan, name := Finish(cfg, modified, candidates, created), NameColumn<H, R>();
    BagConcat(name, Loaded(candidates), modified);
    if created == [] && Loaded(candidates) + modified == [] && Bare(candidates) != [] {
      assert plan.update + plan.delete == Bare(candidates);
      BagConcat(name, plan.update, plan.delete);
      BagEmpty(name);
    } else {
      BagEmpty(name);
    }
  }

  // ---------------------------------------------------------------- where entries come from

  /** Every rule and every pod of the objects passes the given tests. */
  ghost predicate AllEntries<H, R>(rule: R -> bool, pod: PodEndpoint -> bool, objs: seq<PolicyObject<H, R>>) {
    forall o | o in objs :: GoodObject(rule, pod, o)
  }

  ghost predicate GoodObject<H, R>(rule: R -> bool, pod: PodEndpoint -> bool, o: PolicyObject<H, R>) {
    && (forall x | x in o.ingress :: rule(x))
    && (forall x | x in o.egress :: rule(x))
    && (forall x | x in o.pods :: pod(x))
  }

  ghost predicate GoodDesired<R>(rule: R -> bool, pod: PodEndpoint -> bool, d: Desired<R>) {
    && (forall k | k in d.ingress :: rule(d.ingress[k]))
    && (forall k | k in d.egress :: rule(d.egress[k]))
    && (forall p | p in d.pods :: pod(p))
  }

  lemma PackedMembers<O(!new), T(!new)>(col: Column<O, T>, objs: seq<O>, items: seq<T>, chunk: nat, blank: O, i: nat, x: T)
    requires Lawful(col) && chunk > 0
    requires i < |PackColumn(col, objs, items, chunk, blank)|
    requires x in col.get(PackColumn(col, objs, items, chunk, blank)[i])
    ensures x in items || (i < |objs| && x in col.get(objs[i]))
  {
    PackedLists(col, objs, items, chunk, blank);
    var rest := LeftOver(col, objs, items, chunk);
    if i < |objs| {
      FilledAt(col, objs, items, chunk, |objs|, i);
    } else {
      ChunkMembers(rest, chunk, i - |objs|, x);
    }
  }

  lemma {:induction false} ChunkMembers<T>(items: seq<T>, chunk: nat, i: nat, x: T)
    requires chunk > 0 && i < |Chunks(items, chunk)| && x in Chunks(items, chunk)[i]
    ensures x in items
    decreases |items|
  {
    var n := Min(chunk, |items|);
    if i > 0 {
      ChunkMembers(items[n..], chunk, i - 1, x);
    }
  }

  lemma IngressPassGood<H(!new), R(!new)>(
    rule: R -> bool, pod: PodEndpoint -> bool, objs: seq<PolicyObject<H, R>>, items: seq<R>, chunk: nat, blank: PolicyObject<H, R>)
    requires chunk > 0 && AllEntries(rule, pod, objs) && IsBare(blank)
    requires forall x | x in items :: rule(x)
    ensures AllEntries(rule, pod, PackColumn(IngressColumn(), objs, items, chunk, blank))
  {
    var packed := PackColumn(IngressColumn<H, R>(), objs, items, chunk, blank);
    hide PackColumn;
    ColumnLaws<H, R>();
    PackIngressKeeps(objs, items, chunk, blank);
    forall o | o in packed ensures GoodObject(rule, pod, o) {
      var i: nat :| i < |packed| && packed[i] == o;
      assert i < |objs| ==> GoodObject(rule, pod, objs[i]);
      forall x | x in o.ingress ensures rule(x) {
        PackedMembers(IngressColumn(), objs, items, chunk, blank, i, x);
      }
    }
  }

  lemma EgressPassGood<H(!new), R(!new)>(
    rule: R -> bool, pod: PodEndpoint -> bool, objs: seq<PolicyObject<H, R>>, items: seq<R>, chunk: nat, blank: PolicyObject<H, R>)
    requires chunk > 0 && AllEntries(rule, pod, objs) && IsBare(blank)
    requires forall x | x in items :: rule(x)
    ensures AllEntries(rule, pod, PackColumn(EgressColumn(), objs, items, chunk, blank))
  {
    var packed := PackColumn(EgressColumn<H, R>(), objs, items, chunk, blank);
    hide PackColumn;
    ColumnLaws<H, R>();
    PackEgressKeeps(objs, items, chunk, blank);
    forall o | o in packed ensures GoodObject(rule, pod, o) {
      var i: nat :| i < |packed| && packed[i] == o;
      assert i < |objs| ==> GoodObject(rule, pod, objs[i]);
      forall x | x in o.egress ensures rule(x) {
        PackedMembers(EgressColumn(), objs, items, chunk, blank, i, x);
      }
    }
  }

  lemma PodPassGood<H(!new), R(!new)>(
    rule: R -> bool, pod: PodEndpoint -> bool, objs: seq<PolicyObject<H, R>>, items: seq<PodEndpoint>, chunk: nat, blank: PolicyObject<H, R>)
    requires chunk > 0 && AllEntries(rule, pod, objs) && IsBare(blank)
    requires forall x | x in items :: pod(x)
    ensures AllEntries(rule, pod, PackColumn(PodColumn(), objs, items, chunk, blank))
  {
    var packed := PackColumn(PodColumn<H, R>(), objs, items, chunk, blank);
    hide PackColumn;
    ColumnLaws<H, R>();
    PackPodsKeeps(objs, items, chunk, blank);
    forall o | o in packed ensures GoodObject(rule, pod, o) {
      var i: nat :| i < |packed| && packed[i] == o;
      assert i < |objs| ==> GoodObject(rule, pod, objs[i]);
      forall x | x in o.pods ensures pod(x) {
        PackedMembers(PodColumn(), objs, items, chunk, blank, i, x);
      }
    }
  }

  lemma PassesKeepGood<H(!new), R(!new)>(
    rule: R -> bool, pod: PodEndpoint -> bool, cfg: Config<H, R>, slots: seq<PolicyObject<H, R>>,
    ingress: seq<R>, egress: seq<R>, pods: seq<PodEndpoint>)
    requires cfg.chunk > 0 && AllEntries(rule, pod, slots)
    requires (forall x | x in ingress :: rule(x)) && (forall x | x in egress :: rule(x)) && (forall x | x in pods :: pod(x))
    ensures AllEntries(rule, pod, PackAll(cfg, slots, ingress, egress, pods))
  {
    var packed1 := PackColumn(IngressColumn(), slots, ingress, cfg.chunk, Blank(cfg));
    var packed2 := PackColumn(EgressColumn(), packed1, egress, cfg.chunk, Blank(cfg));
    hide PackColumn, AllEntries;
    IngressPassGood(rule, pod, slots, ingress, cfg.chunk, Blank(cfg));
    EgressPassGood(rule, pod, packed1, egress, cfg.chunk, Blank(cfg));
    PodPassGood(rule, pod, packed2, pods, cfg.chunk, Blank(cfg));
  }

  lemma PurgeKeepsGood<H, R>(
    rule: R -> bool, pod: PodEndpoint -> bool, cfg: Config<H, R>, existing: seq<PolicyObject<H, R>>, d: Desired<R>)
    requires AllEntries(rule, pod, existing)
    ensures AllEntries(rule, pod, Slots(cfg, existing, d))
  {
    hide Kept, Left;
    var purged := PurgeAll(cfg, existing, d, |existing|);
    forall o | o in purged ensures GoodObject(rule, pod, o) {
      var i := SlotOrigin(cfg, existing, d, o);
      assert existing[i] in existing;
    }
  }

  /** Survivors hold only entries of existing objects and desired entries. */
  lemma PlanEntriesGood<H(!new), R(!new)>(
    rule: R -> bool, pod: PodEndpoint -> bool, cfg: Config<H, R>, existing: seq<PolicyObject<H, R>>, d: Desired<R>, order: Order)
    requires cfg.chunk > 0 && ValidOrder(cfg, existing, d, order)
    requires AllEntries(rule, pod, existing) && GoodDesired(rule, pod, d)
    ensures AllEntries(rule, pod, Surviving(PlanFor(cfg, existing, d, order)))
    ensures AllEntries(rule, pod, PlanFor(cfg, existing, d, order).delete)
  {
    hide *;
    var packed, modified, candidates, created := PlanParts(cfg, existing, d, order);
    OrderGood(rule, pod, cfg, existing, d, order);
    PurgeKeepsGood(rule, pod, cfg, existing, d);
    PassesKeepGood(rule, pod, cfg, Slots(cfg, existing, d),
      Lookup(d.ingress, order.ingress), Lookup(d.egress, order.egress), order.pods);
    FinishGood(rule, pod, cfg, modified, candidates, created);
  }

  lemma OrderGood<H, R>(
    rule: R -> bool, pod: PodEndpoint -> bool, cfg: Config<H, R>, existing: seq<PolicyObject<H, R>>, d: Desired<R>, order: Order)
    requires ValidOrder(cfg, existing, d, order) && GoodDesired(rule, pod, d)
    ensures (forall k | k in order.ingress :: k in d.ingress) && (forall k | k in order.egress :: k in d.egress)
    ensures forall x | x in Lookup(d.ingress, order.ingress) :: rule(x)
    ensures forall x | x in Lookup(d.egress, order.egress) :: rule(x)
    ensures forall x | x in order.pods :: pod(x)
  {
    OrderInMap(cfg, existing, d, order);
    hide ValidOrder;
  }

  lemma FinishGood<H, R>(
    rule: R -> bool, pod: PodEndpoint -> bool, cfg: Config<H, R>, modified: seq<PolicyObject<H, R>>,
    candidates: seq<PolicyObject<H, R>>, created: seq<PolicyObject<H, R>>)
    requires AllEntries(rule, pod, modified + candidates + created)
    ensures AllEntries(rule, pod, Surviving(Finish(cfg, modified, candidates, created)))
    ensures AllEntries(rule, pod, Finish(cfg, modified, candidates, created).delete)
  {
    assert GoodObject(rule, pod, Blank(cfg));
    assert AllEntries(rule, pod, modified) && AllEntries(rule, pod, candidates) && AllEntries(rule, pod, created);
    hide GoodObject;
  }
}
