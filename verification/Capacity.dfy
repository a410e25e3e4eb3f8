/** How many objects a plan creates, and why no plan can do with fewer. */
module Capacity {
  import opened Basics
  import opened PolicyInfo
  import opened Packing
  import opened Purge
  import opened Reconciler
  import opened Placement

  /** New slots that `count` entries need beyond the free capacity of the old slots. */
  function SlotsNeeded(count: nat, lens: seq<nat>, chunk: nat): nat
    requires chunk > 0
  {
    CeilDiv(Max(0, count - Free(lens, chunk)), chunk)
  }

  lemma PassCount<O, T>(col: Column<O, T>, objs: seq<O>, items: seq<T>, chunk: nat, blank: O)
    requires chunk > 0
    ensures |PackColumn(col, objs, items, chunk, blank)| == |objs| + SlotsNeeded(|items|, Lens(col, objs), chunk)
  {
    OffsetClosedForm(Lens(col, objs), |items|, chunk);
    ChunksCount(LeftOver(col, objs, items, chunk), chunk);
  }

  lemma {:induction false} FreeConcat(a: seq<nat>, b: seq<nat>, chunk: nat)
    ensures Free(a + b, chunk) == Free(a, chunk) + Free(b, chunk)
  {
    if b == [] {
      assert a + b == a;
    } else {
      FreeConcat(a, b[..|b| - 1], chunk);
      assert (a + b)[..|a + b| - 1] == a + b[..|b| - 1];
    }
  }

  lemma {:induction false} FreeZeros(zeros: seq<nat>, chunk: nat)
    requires forall i :: 0 <= i < |zeros| ==> zeros[i] == 0
    ensures Free(zeros, chunk) == |zeros| * chunk
  {
    if zeros != [] {
      FreeZeros(zeros[..|zeros| - 1], chunk);
      assert |zeros| * chunk == (|zeros| - 1) * chunk + chunk;
    }
  }

  lemma {:induction false} CeilDivLess(a: nat, b: nat, c: nat)
    requires b > 0
    ensures CeilDiv(Max(0, a - c * b), b) == Max(0, CeilDiv(a, b) - c)
  {
    if c > 0 {
      CeilDivLess(Max(0, a - b), b, c - 1);
      assert c * b == (c - 1) * b + b;
      assert a > 0 ==> CeilDiv(a, b) == 1 + CeilDiv(Max(0, a - b), b);
    }
  }

  /** Slots opened by earlier passes are shared: a later pass opens only what is missing. */
  lemma NeededAfter(count: nat, lens: seq<nat>, later: seq<nat>, chunk: nat)
    requires chunk > 0 && |lens| <= |later|
    requires forall i :: 0 <= i < |later| ==> later[i] == if i < |lens| then lens[i] else 0
    ensures SlotsNeeded(count, later, chunk) == Max(0, SlotsNeeded(count, lens, chunk) - (|later| - |lens|))
  {
    var zeros, c := later[|lens|..], |later| - |lens|;
    assert later == lens + zeros;
    FreeConcat(lens, zeros, chunk);
    FreeZeros(zeros, chunk);
    var a := Max(0, count - Free(lens, chunk));
    CeilDivLess(a, chunk, c);
    assert c * chunk >= 0;
    assert Max(0, count - Free(later, chunk)) == Max(0, a - c * chunk);
  }

  lemma ElsewhereLens<H, R>(
    before: seq<PolicyObject<H, R>>, after: seq<PolicyObject<H, R>>, blank: PolicyObject<H, R>,
    ingress: bool, egress: bool, pods: bool)
    requires KeptElsewhere(before, after, blank, ingress, egress, pods) && IsBare(blank)
    ensures !egress ==> forall i :: 0 <= i < |after| ==>
      Lens(EgressColumn(), after)[i] == if i < |before| then Lens(EgressColumn(), before)[i] else 0
    ensures !pods ==> forall i :: 0 <= i < |after| ==>
      Lens(PodColumn(), after)[i] == if i < |before| then Lens(PodColumn(), before)[i] else 0
  {
  }

  /** A pass over another field creates objects in which this field is empty. */
  lemma EgressAfter<H, R>(
    before: seq<PolicyObject<H, R>>, after: seq<PolicyObject<H, R>>, blank: PolicyObject<H, R>, ingress: bool, count: nat, chunk: nat)
    requires chunk > 0 && KeptElsewhere(before, after, blank, ingress, false, false) && IsBare(blank)
    ensures |before| <= |after|
    ensures SlotsNeeded(count, Lens(EgressColumn(), after), chunk) ==
            Max(0, SlotsNeeded(count, Lens(EgressColumn(), before), chunk) - (|after| - |before|))
  {
    ElsewhereLens(before, after, blank, ingress, false, false);
    hide Lens, EgressColumn, SlotsNeeded;
    NeededAfter(count, Lens(EgressColumn(), before), Lens(EgressColumn(), after), chunk);
  }

  lemma PodsAfter<H, R>(
    before: seq<PolicyObject<H, R>>, after: seq<PolicyObject<H, R>>, blank: PolicyObject<H, R>,
    ingress: bool, egress: bool, count: nat, chunk: nat)
    requires chunk > 0 && KeptElsewhere(before, after, blank, ingress, egress, false) && IsBare(blank)
    ensures |before| <= |after|
    ensures SlotsNeeded(count, Lens(PodColumn(), after), chunk) ==
            Max(0, SlotsNeeded(count, Lens(PodColumn(), before), chunk) - (|after| - |before|))
  {
    ElsewhereLens(before, after, blank, ingress, egress, false);
    hide Lens, PodColumn, SlotsNeeded;
    NeededAfter(count, Lens(PodColumn(), before), Lens(PodColumn(), after), chunk);
  }

  lemma MaxThree(a: nat, b: nat, c: nat)
    ensures a + Max(0, b - a) + Max(0, Max(0, c - a) - Max(0, b - a)) == Max(a, Max(b, c))
  {
  }

  lemma PackAllDef<H, R>(
    cfg: Config<H, R>, slots: seq<PolicyObject<H, R>>, ingress: seq<R>, egress: seq<R>, pods: seq<PodEndpoint>)
    requires cfg.chunk > 0
    ensures IsBare(Blank(cfg))
    ensures var packed1 := PackColumn(IngressColumn(), slots, ingress, cfg.chunk, Blank(cfg));
            var packed2 := PackColumn(EgressColumn(), packed1, egress, cfg.chunk, Blank(cfg));
            PackAll(cfg, slots, ingress, egress, pods) == PackColumn(PodColumn(), packed2, pods, cfg.chunk, Blank(cfg))
  {
    hide PackColumn;
  }

  lemma PackAllCount<H(!new), R(!new)>(
    cfg: Config<H, R>, slots: seq<PolicyObject<H, R>>, ingress: seq<R>, egress: seq<R>, pods: seq<PodEndpoint>)
    requires cfg.chunk > 0
    ensures |PackAll(cfg, slots, ingress, egress, pods)| - |slots| ==
            Max(SlotsNeeded(|ingress|, Lens(IngressColumn<H, R>(), slots), cfg.chunk),
            Max(SlotsNeeded(|egress|, Lens(EgressColumn<H, R>(), slots), cfg.chunk),
                SlotsNeeded(|pods|, Lens(PodColumn<H, R>(), slots), cfg.chunk)))
  {
    hide *;
    var blank, chunk := Blank(cfg), cfg.chunk;
    var packed1 := PackColumn(IngressColumn(), slots, ingress, chunk, blank);
    var packed2 := PackColumn(EgressColumn(), packed1, egress, chunk, blank);
    PackAllDef(cfg, slots, ingress, egress, pods);
    PassCount(IngressColumn(), slots, ingress, chunk, blank);
    PassCount(EgressColumn(), packed1, egress, chunk, blank);
    PassCount(PodColumn(), packed2, pods, chunk, blank);
    PackIngressKeeps(slots, ingress, chunk, blank);
    PackEgressKeeps(packed1, egress, chunk, blank);
    EgressAfter(slots, packed1, blank, true, |egress|, chunk);
    PodsAfter(slots, packed1, blank, true, false, |pods|, chunk);
    PodsAfter(packed1, packed2, blank, false, true, |pods|, chunk);
    MaxThree(SlotsNeeded(|ingress|, Lens(IngressColumn<H, R>(), slots), chunk),
      SlotsNeeded(|egress|, Lens(EgressColumn<H, R>(), slots), chunk),
      SlotsNeeded(|pods|, Lens(PodColumn<H, R>(), slots), chunk));
  }

  lemma LensFreeSnoc<O, T>(col: Column<O, T>, objs: seq<O>, o: O, chunk: nat)
    ensures Free(Lens(col, objs + [o]), chunk) == Free(Lens(col, objs), chunk) + Max(0, chunk - |col.get(o)|)
    ensures objs + [] == objs
  {
    var lens := Lens(col, objs + [o]);
    assert lens == Lens(col, objs) + [|col.get(o)|];
    assert lens[..|objs|] == Lens(col, objs);
  }

  /** Sorting the objects into groups does not change their free capacity. */
  lemma {:induction false} SplitFree<H, R, T>(col: Column<PolicyObject<H, R>, T>, objs: seq<PolicyObject<H, R>>, chunk: nat)
    ensures Free(Lens(col, Loaded(objs)), chunk) + Free(Lens(col, Bare(objs)), chunk) == Free(Lens(col, objs), chunk)
    ensures |Loaded(objs)| + |Bare(objs)| == |objs|
  {
    hide *;
    if objs == [] {
      SplitFreeStart(col, chunk);
    } else {
      var init, last := objs[..|objs| - 1], objs[|objs| - 1];
      SplitFree(col, init, chunk);
      assert objs == init + [last];
      LoadedBareSnoc(init, last);
      LensFreeSnoc(col, init, last, chunk);
      LensFreeSnoc(col, Loaded(init), last, chunk);
      LensFreeSnoc(col, Bare(init), last, chunk);
    }
  }

  lemma SplitFreeStart<H, R, T>(col: Column<PolicyObject<H, R>, T>, chunk: nat)
    ensures Loaded<H, R>([]) == [] && Bare<H, R>([]) == []
    ensures Free(Lens(col, []), chunk) == 0
  {
  }

  lemma SlotsFree<H, R, T>(
    col: Column<PolicyObject<H, R>, T>, cfg: Config<H, R>, existing: seq<PolicyObject<H, R>>, d: Desired<R>)
    ensures Free(Lens(col, Slots(cfg, existing, d)), cfg.chunk) ==
            Free(Lens(col, PurgeAll(cfg, existing, d, |existing|)), cfg.chunk)
    ensures |Slots(cfg, existing, d)| == |existing|
  {
    var purged := PurgeAll(cfg, existing, d, |existing|);
    SplitFree(col, purged, cfg.chunk);
    LensConcat(col, Loaded(purged), Bare(purged));
    FreeConcat(Lens(col, Loaded(purged)), Lens(col, Bare(purged)), cfg.chunk);
  }

  /** New objects needed, from the existing objects after purging and the entries left to place. */
  ghost function ObjectsNeeded<H, R>(
    cfg: Config<H, R>, existing: seq<PolicyObject<H, R>>, d: Desired<R>, order: Order): nat
    requires cfg.chunk > 0
  {
    var purged := PurgeAll(cfg, existing, d, |existing|);
    Max(SlotsNeeded(|order.ingress|, Lens(IngressColumn<H, R>(), purged), cfg.chunk),
    Max(SlotsNeeded(|order.egress|, Lens(EgressColumn<H, R>(), purged), cfg.chunk),
        SlotsNeeded(|order.pods|, Lens(PodColumn<H, R>(), purged), cfg.chunk)))
  }

  /** Exactly as many objects are created as the fullest of the three dimensions needs, or one
      when there is neither an existing object nor anything to publish. */
  lemma CreateCount<H(!new), R(!new)>(cfg: Config<H, R>, existing: seq<PolicyObject<H, R>>, d: Desired<R>, order: Order)
    requires cfg.chunk > 0 && ValidOrder(cfg, existing, d, order)
    ensures var needed := ObjectsNeeded(cfg, existing, d, order);
            |PlanFor(cfg, existing, d, order).create| == if existing == [] && needed == 0 then 1 else needed
  {
    hide *;
    var packed, modified, candidates, created := PlanParts(cfg, existing, d, order);
    var slots := Slots(cfg, existing, d);
    PackAllCount(cfg, slots, Lookup(d.ingress, order.ingress), Lookup(d.egress, order.egress), order.pods);
    LookupSize(d.ingress, order.ingress);
    LookupSize(d.egress, order.egress);
    NeededBySlots(cfg, existing, d, order);
    SplitSize(PurgeAll(cfg, existing, d, |existing|));
    PurgeAllSize(cfg, existing, d);
    FinishCreates(cfg, modified, candidates, created);
  }

  lemma LookupSize<R>(m: map<string, R>, order: seq<string>)
    requires forall k | k in order :: k in m
    ensures |Lookup(m, order)| == |order|
  {
  }

  lemma PurgeAllSize<H, R>(cfg: Config<H, R>, existing: seq<PolicyObject<H, R>>, d: Desired<R>)
    ensures |PurgeAll(cfg, existing, d, |existing|)| == |existing|
  {
  }

  /** What the slots need is what the purged objects need. */
  lemma NeededBySlots<H, R>(cfg: Config<H, R>, existing: seq<PolicyObject<H, R>>, d: Desired<R>, order: Order)
    requires cfg.chunk > 0
    ensures |Slots(cfg, existing, d)| == |existing|
    ensures var slots := Slots(cfg, existing, d);
            ObjectsNeeded(cfg, existing, d, order) ==
            Max(SlotsNeeded(|order.ingress|, Lens(IngressColumn<H, R>(), slots), cfg.chunk),
            Max(SlotsNeeded(|order.egress|, Lens(EgressColumn<H, R>(), slots), cfg.chunk),
                SlotsNeeded(|order.pods|, Lens(PodColumn<H, R>(), slots), cfg.chunk)))
  {
    hide PurgeAll, Free, Lens, Slots, IngressColumn, EgressColumn, PodColumn, CeilDiv;
    SlotsFree(IngressColumn<H, R>(), cfg, existing, d);
    SlotsFree(EgressColumn<H, R>(), cfg, existing, d);
    SlotsFree(PodColumn<H, R>(), cfg, existing, d);
  }

  lemma {:induction false} SplitSize<H, R>(objs: seq<PolicyObject<H, R>>)
    ensures |Loaded(objs)| + |Bare(objs)| == |objs|
  {
    if objs != [] {
      SplitSize(objs[..|objs| - 1]);
    }
  }

  lemma FinishCreates<H, R>(
    cfg: Config<H, R>, modified: seq<PolicyObject<H, R>>,
    candidates: seq<PolicyObject<H, R>>, created: seq<PolicyObject<H, R>>)
    ensures |Finish(cfg, modified, candidates, created).create| ==
            if modified == [] && candidates == [] && created == [] then 1 else |created|
  {
    SplitSize(candidates);
  }

  // ---------------------------------------------------------------- no plan needs fewer

  function Sum(s: seq<nat>): nat {
    if s == [] then 0 else Sum(s[..|s| - 1]) + s[|s| - 1]
  }

  /** Another way to place the entries of one dimension: `extra[i]` more in old slot `i`,
      which keeps its `lens[i]` entries, and `sizes[j]` in new slot `j`. */
  ghost predicate Fits(lens: seq<nat>, extra: seq<nat>, sizes: seq<nat>, count: nat, chunk: nat) {
    && |extra| == |lens|
    && (forall i :: 0 <= i < |lens| ==> extra[i] == 0 || lens[i] + extra[i] <= chunk)
    && (forall j :: 0 <= j < |sizes| ==> sizes[j] <= chunk)
    && Sum(extra) + Sum(sizes) == count
  }

  lemma {:induction false} ExtraFits(lens: seq<nat>, extra: seq<nat>, chunk: nat)
    requires |extra| == |lens|
    requires forall i :: 0 <= i < |lens| ==> extra[i] == 0 || lens[i] + extra[i] <= chunk
    ensures Sum(extra) <= Free(lens, chunk)
  {
    if lens != [] {
      ExtraFits(lens[..|lens| - 1], extra[..|extra| - 1], chunk);
    }
  }

  lemma {:induction false} SizesFit(sizes: seq<nat>, chunk: nat)
    requires forall j :: 0 <= j < |sizes| ==> sizes[j] <= chunk
    ensures Sum(sizes) <= |sizes| * chunk
  {
    if sizes != [] {
      SizesFit(sizes[..|sizes| - 1], chunk);
      assert |sizes| * chunk == (|sizes| - 1) * chunk + chunk;
    }
  }

  lemma FitsNeedsSlots(lens: seq<nat>, extra: seq<nat>, sizes: seq<nat>, count: nat, chunk: nat)
    requires chunk > 0 && Fits(lens, extra, sizes, count, chunk)
    ensures |sizes| >= SlotsNeeded(count, lens, chunk)
  {
    ExtraFits(lens, extra, chunk);
    SizesFit(sizes, chunk);
    CeilDivLeast(Max(0, count - Free(lens, chunk)), chunk, |sizes|);
  }

  /** No placement that leaves the kept entries where they are and respects the chunk size
      creates fewer objects; one object at least must exist. */
  lemma CreateCountIsOptimal<H(!new), R(!new)>(
    cfg: Config<H, R>, existing: seq<PolicyObject<H, R>>, d: Desired<R>, order: Order, created: nat,
    ingressExtra: seq<nat>, ingressSizes: seq<nat>, egressExtra: seq<nat>, egressSizes: seq<nat>,
    podExtra: seq<nat>, podSizes: seq<nat>)
    requires cfg.chunk > 0 && ValidOrder(cfg, existing, d, order)
    requires |ingressSizes| == |egressSizes| == |podSizes| == created && |existing| + created >= 1
    requires var purged := PurgeAll(cfg, existing, d, |existing|);
             && Fits(Lens(IngressColumn<H, R>(), purged), ingressExtra, ingressSizes, |order.ingress|, cfg.chunk)
             && Fits(Lens(EgressColumn<H, R>(), purged), egressExtra, egressSizes, |order.egress|, cfg.chunk)
             && Fits(Lens(PodColumn<H, R>(), purged), podExtra, podSizes, |order.pods|, cfg.chunk)
    ensures |PlanFor(cfg, existing, d, order).create| <= created
  {
    var purged := PurgeAll(cfg, existing, d, |existing|);
    hide PlanFor, Fits, PurgeAll, Lens, SlotsNeeded;
    CreateCount(cfg, existing, d, order);
    FitsNeedsSlots(Lens(IngressColumn<H, R>(), purged), ingressExtra, ingressSizes, |order.ingress|, cfg.chunk);
    FitsNeedsSlots(Lens(EgressColumn<H, R>(), purged), egressExtra, egressSizes, |order.egress|, cfg.chunk);
    FitsNeedsSlots(Lens(PodColumn<H, R>(), purged), podExtra, podSizes, |order.pods|, cfg.chunk);
  }

  /** With no existing object, nothing is left to place exactly when nothing is desired. */
  lemma NothingNeeded<H(!new), R(!new)>(cfg: Config<H, R>, d: Desired<R>, order: Order)
    requires cfg.chunk > 0 && ValidOrder(cfg, [], d, order)
    ensures ObjectsNeeded(cfg, [], d, order) == 0 <==> d.ingress.Keys == {} && d.egress.Keys == {} && d.pods == {}
  {
    hide *;
    NothingHeld(cfg, d, order);
    NeededFromNothing(cfg, d, order);
  }

  lemma NothingHeld<H, R>(cfg: Config<H, R>, d: Desired<R>, order: Order)
    requires ValidOrder(cfg, [], d, order)
    ensures |order.ingress| == |d.ingress.Keys| && |order.egress| == |d.egress.Keys| && |order.pods| == |d.pods|
  {
    hide Itself;
    assert Ingresses<H, R>([]) == [] && Egresses<H, R>([]) == [] && PodLists<H, R>([]) == [];
    LeftNothing(cfg.key, d.ingress.Keys);
    LeftNothing(cfg.key, d.egress.Keys);
    LeftNothing(Itself<PodEndpoint>(), d.pods);
    hide Left, Ingresses, Egresses, PodLists;
    ListsMembers(order.ingress, d.ingress.Keys);
    ListsMembers(order.egress, d.egress.Keys);
    ListsMembers(order.pods, d.pods);
  }

  lemma NeededFromNothing<H, R>(cfg: Config<H, R>, d: Desired<R>, order: Order)
    requires cfg.chunk > 0
    ensures ObjectsNeeded(cfg, [], d, order) == 0 <==> |order.ingress| == 0 && |order.egress| == 0 && |order.pods| == 0
  {
    assert Lens(IngressColumn<H, R>(), []) == [] && Lens(EgressColumn<H, R>(), []) == [] && Lens(PodColumn<H, R>(), []) == [];
  }
}
