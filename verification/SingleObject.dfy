/** Rules that are merged: when one object holds everything, further rounds are quiet although
    every merged rule is purged and packed again. */
module SingleObject {
  import opened Basics
  import opened Permutations
  import opened PolicyInfo
  import opened Packing
  import opened Purge
  import opened RuleKeys
  import opened Combine
  import opened Reconciler
  import opened Placement
  import opened Capacity
  import opened Equality
  import opened Store
  import opened WriteEffects
  import opened Convergence
  import opened RoundResult
  import opened ReorderedCopies
  import opened QuietRounds
  import opened Quiescence
  import opened MergeOrder

  /** The desired endpoints fit into one object. */
  ghost predicate FitsOneObject(resolved: Resolved, chunk: nat) {
    && (forall dir: Direction :: |Wanted(DesiredBy(resolved), dir).Keys| <= chunk)
    && |DesiredBy(resolved).pods| <= chunk
  }

  // ---------------------------------------------------------------- the plan for one object

  lemma OneList<T, K>(key: T -> K, list: seq<T>, wanted: set<K>)
    ensures Left(key, [list][..0], wanted) == wanted
    ensures ColumnBag(key, KeptLists(key, [list], wanted, 1)) == Bag(key, Kept(key, list, wanted))
  {
    assert [list][..0] == [];
    var kept := KeptLists(key, [list], wanted, 1);
    assert kept == [] + [Kept(key, list, wanted)];
    hide Kept, Bag;
    NoColumns(key, kept);
    ColumnBagAppend(key, [], Kept(key, list, wanted));
  }

  /** What one object keeps and what is left to be packed fit into it together. */
  lemma OneListFits<T, K(!new)>(key: T -> K, list: seq<T>, wanted: set<K>, order: seq<K>, chunk: nat)
    requires Lists(order, Left(key, [list], wanted)) && |wanted| <= chunk && chunk > 0
    ensures SlotsNeeded(|order|, [|Kept(key, list, Left(key, [list][..0], wanted))|], chunk) == 0
  {
    hide Kept, ColumnBag, Bag, Left, KeptLists;
    OneList(key, list, wanted);
    KeptAndLeft(key, [list], wanted, order);
    BagSize(key, Kept(key, list, wanted));
    assert |multiset(order)| == |order|;
    assert |multiset(wanted)| == |wanted|;
    OneSlot(|Kept(key, list, wanted)|, |order|, chunk);
  }

  lemma OneSlot(len: nat, count: nat, chunk: nat)
    requires chunk > 0 && len + count <= chunk
    ensures SlotsNeeded(count, [len], chunk) == 0
  {
    assert [len][..0] == [];
    assert Free([len], chunk) == chunk - len;
  }

  lemma OneNeedsNoMore(cfg: Config<PolicyHeader, EndpointInfo>, o: PolicyEndpoint, d: Desired<EndpointInfo>, order: Order)
    requires cfg.chunk > 0 && ValidOrder(cfg, [o], d, order)
    requires |d.ingress.Keys| <= cfg.chunk && |d.egress.Keys| <= cfg.chunk && |d.pods| <= cfg.chunk
    ensures ObjectsNeeded(cfg, [o], d, order) == 0
  {
    var purged := PurgeAll(cfg, [o], d, 1);
    PurgedObjectFields(cfg, [o], d, 0);
    assert purged == [PurgedObject(cfg, [o], d, 0)];
    assert Ingresses([o]) == [o.ingress] && Egresses([o]) == [o.egress] && PodLists([o]) == [o.pods];
    hide PurgeAll, PurgedObject, Kept, Left, SlotsNeeded, Itself;
    OneListFits(cfg.key, o.ingress, d.ingress.Keys, order.ingress, cfg.chunk);
    OneListFits(cfg.key, o.egress, d.egress.Keys, order.egress, cfg.chunk);
    OneListFits(Itself<PodEndpoint>(), o.pods, d.pods, order.pods, cfg.chunk);
    assert Lens(IngressColumn<PolicyHeader, EndpointInfo>(), purged) == [|purged[0].ingress|];
    assert Lens(EgressColumn<PolicyHeader, EndpointInfo>(), purged) == [|purged[0].egress|];
    assert Lens(PodColumn<PolicyHeader, EndpointInfo>(), purged) == [|purged[0].pods|];
  }

  lemma OneListing(now: Objects, listing: seq<string>, n: string)
    requires ListsStore(now, listing) && now.Keys == {n}
    ensures listing == [n] && ObjectsListed(now, listing) == [now[n]]
  {
    ListsMembers(listing, now.Keys);
    assert |listing| == 1 && listing[0] in listing;
  }

  lemma FitsDef(resolved: Resolved, chunk: nat)
    requires FitsOneObject(resolved, chunk)
    ensures var d := DesiredBy(resolved); |d.ingress.Keys| <= chunk && |d.egress.Keys| <= chunk && |d.pods| <= chunk
  {
    hide DesiredBy;
    assert |Wanted(DesiredBy(resolved), Ingress).Keys| <= chunk;
    assert |Wanted(DesiredBy(resolved), Egress).Keys| <= chunk;
  }

  lemma BagSizes<H, R>(a: seq<PolicyObject<H, R>>, b: seq<PolicyObject<H, R>>, c: seq<PolicyObject<H, R>>)
    requires Names(a) + Names(b) == Names(c)
    ensures |a| + |b| == |c|
  {
    BagSize(NameColumn<H, R>(), a);
    BagSize(NameColumn<H, R>(), b);
    BagSize(NameColumn<H, R>(), c);
  }

  /** A round on the only object updates it and does nothing else. */
  lemma OneUpdate(now: Objects, again: Round, n: string)
    requires ValidStore(now) && RoundValid(now, again) && now.Keys == {n} && FitsOneObject(again.resolved, again.chunk)
    ensures PlanOf(now, again).create == [] && PlanOf(now, again).delete == [] && |PlanOf(now, again).update| == 1
    ensures PlanOf(now, again).update[0].header == now[n].header.(podIsolation := again.policy.policyTypes)
    ensures PlanOf(now, again).update[0].name == n
  {
    hide *;
    RoundListing(now, again);
    RoundParts(now, again);
    OneListing(now, again.listing, n);
    FitsDef(again.resolved, again.chunk);
    var cfg, d, p := ConfigOf(again.policy, again.chunk), DesiredBy(again.resolved), PlanOf(now, again);
    OneNeedsNoMore(cfg, now[n], d, again.order);
    CreateCount(cfg, [now[n]], d, again.order);
    PlanShape(cfg, [now[n]], d, again.order);
    PlanNames(cfg, [now[n]], d, again.order);
    BagSizes(p.update, p.delete, [now[n]]);
    SurvivingSize(p);
    var i := UpdateOrigin(cfg, [now[n]], d, again.order, p.update[0]);
    OneRefreshed(again.policy, again.chunk, now[n], d, p.update[0]);
    NamedHere(now, n);
  }

  lemma NoSlotFits<K>(order: seq<K>, wanted: set<K>, chunk: nat)
    requires chunk > 0 && |wanted| <= chunk && Lists(order, wanted)
    ensures SlotsNeeded(|order|, [], chunk) <= 1
  {
    ListsMembers(order, wanted);
    assert CeilDiv(0, chunk) == 0;
  }

  lemma NoneNeedsOne(cfg: Config<PolicyHeader, EndpointInfo>, d: Desired<EndpointInfo>, order: Order)
    requires cfg.chunk > 0 && ValidOrder(cfg, [], d, order)
    requires |d.ingress.Keys| <= cfg.chunk && |d.egress.Keys| <= cfg.chunk && |d.pods| <= cfg.chunk
    ensures ObjectsNeeded(cfg, [], d, order) <= 1
  {
    hide SlotsNeeded;
    assert Ingresses<PolicyHeader, EndpointInfo>([]) == [] && Egresses<PolicyHeader, EndpointInfo>([]) == [] && PodLists<PolicyHeader, EndpointInfo>([]) == [];
    NoneHeld(cfg.key, d.ingress.Keys);
    NoneHeld(cfg.key, d.egress.Keys);
    NoneHeld(Itself<PodEndpoint>(), d.pods);
    NoSlotFits(order.ingress, d.ingress.Keys, cfg.chunk);
    NoSlotFits(order.egress, d.egress.Keys, cfg.chunk);
    NoSlotFits(order.pods, d.pods, cfg.chunk);
    assert PurgeAll(cfg, [], d, 0) == [];
  }

  lemma NoneHeld<T, K(!new)>(key: T -> K, wanted: set<K>)
    ensures Left(key, [], wanted) == wanted
  {
  }

  /** A round on an empty store creates one object and does nothing else. */
  lemma OneCreate(now: Objects, again: Round)
    requires ValidStore(now) && RoundValid(now, again) && now.Keys == {} && FitsOneObject(again.resolved, again.chunk)
    ensures |PlanOf(now, again).create| == 1 && PlanOf(now, again).update == []
  {
    hide *;
    RoundListing(now, again);
    RoundParts(now, again);
    ListsStoreDef(now, again.listing);
    ListsMembers(again.listing, now.Keys);
    FitsDef(again.resolved, again.chunk);
    var cfg, d, p := ConfigOf(again.policy, again.chunk), DesiredBy(again.resolved), PlanOf(now, again);
    assert ObjectsListed(now, again.listing) == [];
    NoneNeedsOne(cfg, d, again.order);
    CreateCount(cfg, [], d, again.order);
    PlanNames(cfg, [], d, again.order);
    BagSizes(p.update, p.delete, []);
  }

  /** From a store with at most one object, a round leaves one object. */
  lemma OneObjectLeft(s: Objects, r: Round)
    requires ValidStore(s) && RoundValid(s, r) && |s| <= 1 && FitsOneObject(r.resolved, r.chunk)
    ensures |StoreAfter(s, r)| == 1
  {
    hide *;
    assert |s| == |s.Keys|;
    if |s| == 1 {
      var n := OnlyName(s);
      OneUpdate(s, r, n);
    } else {
      OneCreate(s, r);
    }
    PlanSizes(s, r);
    PlanNamesList(s, r);
    SurvivingSize(PlanOf(s, r));
    ListsMembers(PlanNamesOf(r), StoreAfter(s, r).Keys);
    assert |StoreAfter(s, r)| == |StoreAfter(s, r).Keys|;
  }

  lemma NamedHere(now: Objects, n: string)
    requires ValidStore(now) && n in now
    ensures now[n].name == n && ValidSpec(now[n])
  {
    hide ValidSpec;
  }

  lemma SurvivingSize(p: Plan<PolicyHeader, EndpointInfo>)
    ensures |Surviving(p)| == |p.create| + |p.update|
  {
  }

  lemma OneRefreshed(policy: Policy, chunk: nat, o: PolicyEndpoint, d: Desired<EndpointInfo>, u: PolicyEndpoint)
    requires Grown(PurgedObject(ConfigOf(policy, chunk), [o], d, 0), u, chunk)
    ensures u.header == o.header.(podIsolation := policy.policyTypes) && u.name == o.name
  {
    hide Kept, Left;
  }

  // ---------------------------------------------------------------- what the only survivor holds

  lemma OneColumn<T, K>(key: T -> K, list: seq<T>)
    ensures ColumnBag(key, [list]) == Bag(key, list)
  {
    hide Bag;
    NoColumns(key, [list]);
    assert [list] == [] + [list];
    ColumnBagAppend(key, [], list);
  }

  /** The only survivor of a round holds every desired entry once and nothing else. */
  lemma OnlySurvivorHolds(s: Objects, r: Round, dir: Direction)
    requires ValidStore(s) && RoundValid(s, r) && |Surviving(PlanOf(s, r))| == 1
    ensures var o := Surviving(PlanOf(s, r))[0];
            && Bag(EndpointInfoKey, RulesOf(o, dir)) == multiset(Wanted(DesiredBy(r.resolved), dir).Keys)
            && multiset(o.pods) == multiset(DesiredBy(r.resolved).pods)
            && (forall x | x in RulesOf(o, dir) :: x in RulesWanted(r.resolved, dir))
            && o.header.podIsolation == r.policy.policyTypes
  {
    hide *;
    var survivors := Surviving(PlanOf(s, r));
    var o := survivors[0];
    PlacementOn(s, r, dir);
    PlanPlacement(s, r);
    ListAt(survivors, dir);
    PodListAt(survivors);
    assert RuleLists(survivors, dir) == [RulesOf(o, dir)] && PodLists(survivors) == [o.pods];
    OneColumn(EndpointInfoKey, RulesOf(o, dir));
    OneColumn(Itself<PodEndpoint>(), o.pods);
    ItselfBag(o.pods);
    SurvivorIsolation(s, r, o);
    forall x | x in RulesOf(o, dir) ensures x in RulesWanted(r.resolved, dir) {
      SurvivorRule(s, r, o, dir, x);
    }
  }

  lemma ItselfBag<T>(list: seq<T>)
    ensures Bag(Itself<T>(), list) == multiset(list)
  {
    assert Map(Itself<T>(), list) == list;
  }

  /** Lists of desired rules with the same keys hold the same rules. */
  lemma SameKeysSameRules(a: seq<EndpointInfo>, b: seq<EndpointInfo>)
    requires ValidRules(a) && ValidRules(b) && Bag(EndpointInfoKey, a) == Bag(EndpointInfoKey, b)
    ensures multiset(a) == multiset(b)
  {
    hide EndpointInfoKey, ValidRule, Bag, Itself;
    forall x, y | x in a + b && y in a + b ensures EndpointInfoKey(x) == EndpointInfoKey(y) <==> Itself<EndpointInfo>()(x) == Itself<EndpointInfo>()(y) {
      ItselfDef(x);
      ItselfDef(y);
      if EndpointInfoKey(x) == EndpointInfoKey(y) {
        EndpointInfoKeyInjective(x, y);
      }
    }
    AgreeingKeys(EndpointInfoKey, Itself<EndpointInfo>(), a, b);
    ItselfBag(a);
    ItselfBag(b);
  }

  lemma ItselfDef<T>(x: T)
    ensures Itself<T>()(x) == x
  {
  }

  lemma MergedOn(o: PolicyEndpoint, m: PolicyEndpoint, dir: Direction)
    requires MergedObject(o, m)
    ensures CombinedFrom(RulesOf(o, dir), RulesOf(m, dir))
  {
    hide CombinedFrom;
  }

  lemma ValidOn(o: PolicyEndpoint, dir: Direction)
    requires ValidSpec(o)
    ensures ValidRules(RulesOf(o, dir))
  {
    hide ValidRule;
  }

  lemma ApartAmong(rules: seq<EndpointInfo>, wanted: seq<EndpointInfo>)
    requires PortsApart(wanted) && forall x | x in rules :: x in wanted
    ensures PortsApart(rules)
  {
    hide PortKey;
  }

  /** Two rounds whose only survivors hold the same desired endpoints merge them alike. */
  lemma SurvivorsMergeAlike(s: Objects, r: Round, now: Objects, again: Round, m: PolicyEndpoint, l: PolicyEndpoint, dir: Direction)
    requires ValidStore(s) && RoundValid(s, r) && |Surviving(PlanOf(s, r))| == 1
    requires ValidStore(now) && RoundValid(now, again) && |Surviving(PlanOf(now, again))| == 1
    requires again.resolved == r.resolved && PortsApart(RulesWanted(r.resolved, dir))
    requires MergedObject(Surviving(PlanOf(s, r))[0], m) && MergedObject(Surviving(PlanOf(now, again))[0], l)
    ensures Bag(CanonOf, RulesOf(m, dir)) == Bag(CanonOf, RulesOf(l, dir)) && multiset(m.pods) == multiset(l.pods)
  {
    hide *;
    var o, u := Surviving(PlanOf(s, r))[0], Surviving(PlanOf(now, again))[0];
    OnlySurvivorHolds(s, r, dir);
    OnlySurvivorHolds(now, again, dir);
    assert o in Surviving(PlanOf(s, r)) && u in Surviving(PlanOf(now, again));
    SurvivorsValid(s, r, o);
    SurvivorsValid(now, again, u);
    ValidOn(o, dir);
    ValidOn(u, dir);
    SameKeysSameRules(RulesOf(o, dir), RulesOf(u, dir));
    ApartAmong(RulesOf(o, dir), RulesWanted(r.resolved, dir));
    MergedOn(o, m, dir);
    MergedOn(u, l, dir);
    MergeIgnoresOrder(RulesOf(o, dir), RulesOf(u, dir), RulesOf(m, dir), RulesOf(l, dir));
    MergedName(o, m);
    MergedName(u, l);
  }

  // ---------------------------------------------------------------- the stored object

  /** What is stored after the round is the merged survivor, up to order. */
  lemma OnlyStored(s: Objects, r: Round, n: string) returns (m: PolicyEndpoint)
    requires ValidStore(s) && RoundValid(s, r) && StoreAfter(s, r).Keys == {n}
    ensures |Surviving(PlanOf(s, r))| == 1 && MergedObject(Surviving(PlanOf(s, r))[0], m)
    ensures StoredLike(StoreAfter(s, r)[n], m)
  {
    hide *;
    RoundSizes(s, r);
    RoundNames(s, r);
    PlanSizes(s, r);
    PlanNamesList(s, r);
    ListsMembers(PlanNamesOf(r), StoreAfter(s, r).Keys);
    assert PlanNamesOf(r)[0] in PlanNamesOf(r);
    SurvivingAt(PlanOf(s, r), 0);
    PlanNameAt(r, 0);
    StoreAfterWrites(s, r);
    if |r.names| == 1 {
      m := r.plan.create[0];
      CreatedInStore(s, r, 0);
      RenamedLike(m, n);
    } else {
      m := r.plan.update[0];
      UpdatedInStore(s, r, 0);
      UpdateValid(s, r, 0);
      UpdatedLikeIt(s, StoreAfter(s, r), m);
    }
  }

  lemma StoreAfterWrites(s: Objects, r: Round)
    requires RoundValid(s, r)
    ensures |r.names| == |r.plan.create| && StoreAfter(s, r) == ApplyAll(s, Writes(s, r))
  {
    hide ApplyAll, Writes;
  }

  lemma RenamedLike(m: PolicyEndpoint, n: string)
    ensures StoredLike(m.(name := n), m)
  {
    hide CanonOf, Bag;
  }

  lemma UpdatedLikeIt(s: Objects, now: Objects, m: PolicyEndpoint)
    requires ValidStore(s) && UpdatedIn(s, now, m) && ValidSpec(m)
    ensures StoredLike(now[m.name], m)
  {
    hide CanonOf, Bag, SpecEqual, ValidSpec;
    if now[m.name] != m {
      SpecEqualExact(now[m.name], m);
    }
  }

  /** The update is skipped when the merged survivor is what is stored, up to order. */
  lemma AlikeSkipped(a: PolicyEndpoint, m: PolicyEndpoint, l: PolicyEndpoint, types: seq<string>)
    requires ValidSpec(a) && ValidSpec(l) && StoredLike(a, m)
    requires m.header.podIsolation == types && l.header == a.header.(podIsolation := types)
    requires Bag(CanonOf, RulesOf(m, Ingress)) == Bag(CanonOf, RulesOf(l, Ingress))
    requires Bag(CanonOf, RulesOf(m, Egress)) == Bag(CanonOf, RulesOf(l, Egress))
    requires multiset(m.pods) == multiset(l.pods)
    ensures SpecEqual(a, l)
  {
    SpecEqualExact(a, l);
    hide SpecEqual, ValidSpec, CanonOf, Bag;
  }

  lemma PortsApartOn(resolved: Resolved, dir: Direction)
    requires PortsApart(resolved.ingress) && PortsApart(resolved.egress)
    ensures PortsApart(RulesWanted(resolved, dir))
  {
    hide PortsApart;
  }

  lemma OnlyName(now: Objects) returns (n: string)
    requires |now| == 1
    ensures now.Keys == {n}
  {
    assert |now.Keys| == 1;
    n :| n in now.Keys;
    assert |now.Keys - {n}| == 0;
  }

  /** When one object holds everything that is desired, further rounds write nothing, even when
      desired rules are merged, for every order of the map. */
  lemma SingleObjectQuiet(s: Objects, r: Round, again: Round)
    requires ValidStore(s) && Repeats(s, r, again) && |StoreAfter(s, r)| == 1
    requires FitsOneObject(r.resolved, r.chunk) && PortsApart(r.resolved.ingress) && PortsApart(r.resolved.egress)
    ensures |again.names| == |again.plan.create| && Writes(StoreAfter(s, r), again) == []
  {
    hide *;
    RepeatsParts(s, r, again);
    var now := StoreAfter(s, r);
    var n := OnlyName(now);
    StoreAfterValid(s, r);
    var m := OnlyStored(s, r, n);
    OneUpdate(now, again, n);
    var u := PlanOf(now, again).update[0];
    SurvivingSize(PlanOf(now, again));
    SurvivingAt(PlanOf(now, again), 0);
    PlanSizes(now, again);
    var l := again.plan.update[0];
    PortsApartOn(r.resolved, Ingress);
    PortsApartOn(r.resolved, Egress);
    SurvivorsMergeAlike(s, r, now, again, m, l, Ingress);
    SurvivorsMergeAlike(s, r, now, again, m, l, Egress);
    OnlySurvivorHolds(s, r, Ingress);
    MergedName(Surviving(PlanOf(s, r))[0], m);
    MergedName(u, l);
    UpdateValid(now, again, 0);
    NamedHere(now, n);
    AlikeSkipped(now[n], m, l, r.policy.policyTypes);
    DeletesPlanned(now, again);
    assert again.plan.update == [l];
    NoUpdateWrites(now, again.plan.update);
    NoWrites(now, again);
  }

  lemma RepeatsParts(s: Objects, r: Round, again: Round)
    requires Repeats(s, r, again)
    ensures RoundValid(s, r) && RoundValid(StoreAfter(s, r), again)
    ensures again.policy == r.policy && again.chunk == r.chunk && again.resolved == r.resolved
    ensures |again.names| == |again.plan.create|
  {
    hide StoreAfter, ValidOrder, MergedPlan, PlanFor, ValidResolved, FreshNames, Lists;
  }
}
