/** A round on a store that holds the desired endpoints up to order is quiet exactly when every
    object gets back what it loses. */
module QuietRounds {
  import opened Basics
  import opened Permutations
  import opened PolicyInfo
  import opened Packing
  import opened Purge
  import opened RuleKeys
  import opened Combine
  import opened Reconciler
  import opened Placement
  import opened Equality
  import opened Store
  import opened WriteEffects
  import opened Convergence
  import opened RoundResult
  import opened Repacking
  import opened Refilling
  import opened ReorderedCopies

  // ---------------------------------------------------------------- the rules packed again

  function OrderOn(order: Order, dir: Direction): seq<string> {
    if dir.Ingress? then order.ingress else order.egress
  }

  /** The rules that a round packs, in the order of the map. */
  ghost function Items(now: Objects, again: Round, dir: Direction): (r: seq<EndpointInfo>)
    requires RoundValid(now, again)
    ensures |r| == |OrderOn(again.order, dir)|
  {
    OrderInMap(ConfigOf(again.policy, again.chunk), ObjectsListed(now, again.listing), DesiredBy(again.resolved), again.order);
    Lookup(Wanted(DesiredBy(again.resolved), dir), OrderOn(again.order, dir))
  }

  ghost function LensOn(slots: seq<PolicyEndpoint>, dir: Direction): seq<nat> {
    if dir.Ingress? then IngressLens(slots) else EgressLens(slots)
  }

  ghost function Losts(now: Objects, resolved: Resolved, names: seq<string>, dir: Direction): (r: seq<seq<EndpointInfo>>)
    requires forall n | n in names :: n in now
    ensures |r| == |names| && forall j :: 0 <= j < |names| ==> r[j] == Lost(now[names[j]], resolved, dir)
  {
    seq(|names|, j requires 0 <= j < |names| => Lost(now[names[j]], resolved, dir))
  }

  lemma LensAt(now: Objects, again: Round, dir: Direction, j: nat)
    requires RoundValid(now, again) && ValidStore(now) && AllHeld(now, again.resolved, again.listing)
    requires j < |SlotsOf(now, again)|
    ensures |LensOn(SlotsOf(now, again), dir)| == |SlotsOf(now, again)| && SlotOrder(now, again)[j] in now
    ensures LensOn(SlotsOf(now, again), dir)[j] == |Stays(now[SlotOrder(now, again)[j]], again.resolved, dir)|
  {
    hide SlotsOf, SlotOrder, RoundValid, AllHeld, ValidStore, Stays;
    SlotAt(now, again, j);
  }

  lemma OrderOnValid(now: Objects, again: Round, dir: Direction)
    requires RoundValid(now, again)
    ensures var cols := RuleLists(ObjectsListed(now, again.listing), dir);
            Lists(OrderOn(again.order, dir), Left(EndpointInfoKey, cols, KeysWanted(again.resolved, dir)))
    ensures forall k | k in OrderOn(again.order, dir) :: k in Wanted(DesiredBy(again.resolved), dir)
  {
    OrderInMap(ConfigOf(again.policy, again.chunk), ObjectsListed(now, again.listing), DesiredBy(again.resolved), again.order);
    hide PlanFor, MergedPlan, EndpointInfoKey, ByKey, Left, Ingresses, Egresses, Lists, ObjectsListed;
  }

  /** What is left does not depend on the order of listing. */
  lemma LeftPermuted(now: Objects, a: seq<string>, b: seq<string>, wanted: set<string>, dir: Direction)
    requires ListsStore(now, a) && ListsStore(now, b)
    ensures Left(EndpointInfoKey, RuleLists(ObjectsListed(now, a), dir), wanted) ==
            Left(EndpointInfoKey, RuleLists(ObjectsListed(now, b), dir), wanted)
  {
    ListsStoreDef(now, a);
    ListsStoreDef(now, b);
    hide ListsStore, EndpointInfoKey, RuleLists, ObjectsListed, ColumnBag, RulesAt, Lists;
    SameListing(a, b, now.Keys);
    ListedMaps(now, a, dir);
    ListedMaps(now, b, dir);
    ColumnBagPermute(EndpointInfoKey, RulesAt(now, dir), a, b);
  }

  /** Among desired rules the key and the rule up to order determine each other. */
  lemma WantedKeysAgree(resolved: Resolved, dir: Direction, e: EndpointInfo, y: EndpointInfo)
    requires ValidResolved(resolved) && Apart(resolved) && e in RulesWanted(resolved, dir) && y in RulesWanted(resolved, dir)
    ensures EndpointInfoKey(e) == EndpointInfoKey(y) <==> CanonOf(e) == CanonOf(y)
  {
    hide *;
    ApartOn(resolved, dir);
    WantedValid(resolved, dir);
    if CanonOf(e) == CanonOf(y) {
      SameCanonSameRule(e, y, RulesWanted(resolved, dir));
    }
    if EndpointInfoKey(e) == EndpointInfoKey(y) {
      EndpointInfoKeyInjective(e, y);
    }
  }

  lemma ItemsDef(now: Objects, again: Round, dir: Direction)
    requires RoundValid(now, again)
    ensures (forall k | k in OrderOn(again.order, dir) :: k in Wanted(DesiredBy(again.resolved), dir))
    ensures Items(now, again, dir) == Lookup(Wanted(DesiredBy(again.resolved), dir), OrderOn(again.order, dir))
    ensures Bag(EndpointInfoKey, Items(now, again, dir)) == multiset(OrderOn(again.order, dir))
    ensures forall x | x in Items(now, again, dir) :: x in RulesWanted(again.resolved, dir)
  {
    OrderOnValid(now, again, dir);
    WantedKeyed(again.resolved, dir);
    hide RoundValid, EndpointInfoKey, DesiredBy, Wanted, RulesWanted, OrderOn;
    LookupBag(EndpointInfoKey, Wanted(DesiredBy(again.resolved), dir), OrderOn(again.order, dir));
  }

  lemma WantedKeyed(resolved: Resolved, dir: Direction)
    ensures WellKeyed(EndpointInfoKey, Wanted(DesiredBy(resolved), dir))
    ensures forall k | k in Wanted(DesiredBy(resolved), dir) :: Wanted(DesiredBy(resolved), dir)[k] in RulesWanted(resolved, dir)
  {
    hide EndpointInfoKey;
  }

  ghost function StayLists(now: Objects, resolved: Resolved, names: seq<string>, dir: Direction): seq<seq<EndpointInfo>>
    requires forall n | n in names :: n in now
  {
    CurrentLists(EndpointInfoKey, RuleLists(ObjectsListed(now, names), dir), KeysWanted(resolved, dir))
  }

  lemma ListsSplit(now: Objects, resolved: Resolved, names: seq<string>, dir: Direction)
    requires forall n | n in names :: n in now
    ensures ColumnBag(CanonOf, RuleLists(ObjectsListed(now, names), dir)) ==
            ColumnBag(CanonOf, StayLists(now, resolved, names, dir)) + ColumnBag(CanonOf, Losts(now, resolved, names, dir))
    ensures |StayLists(now, resolved, names, dir)| == |names|
    ensures forall j :: 0 <= j < |names| ==> StayLists(now, resolved, names, dir)[j] == Stays(now[names[j]], resolved, dir)
  {
    var objs := ObjectsListed(now, names);
    var cols := RuleLists(objs, dir);
    ListAt(objs, dir);
    hide ColumnBag, EndpointInfoKey, CanonOf, RuleLists, RulesOf, KeysWanted, Current, Outdated;
    SplitColumns(EndpointInfoKey, CanonOf, cols, KeysWanted(resolved, dir));
    assert OutdatedLists(EndpointInfoKey, cols, KeysWanted(resolved, dir)) == Losts(now, resolved, names, dir);
  }

  /** Together with the rules that stay, the rules that are packed are the desired ones, each once
      up to order. */
  lemma StayAndItems(now: Objects, again: Round, dir: Direction)
    requires RoundValid(now, again) && Reached(now, again.policy, again.resolved)
    ensures forall n | n in SlotOrder(now, again) :: n in now
    ensures ColumnBag(CanonOf, StayLists(now, again.resolved, SlotOrder(now, again), dir)) + Bag(CanonOf, Items(now, again, dir)) ==
            multiset(Canons(RulesWanted(again.resolved, dir)))
  {
    hide *;
    ReachedParts(now, again.policy, again.resolved);
    SlotOrderListing(now, again);
    var names, wanted := SlotOrder(now, again), RulesWanted(again.resolved, dir);
    ListsStoreDef(now, names);
    var stay, items := StayLists(now, again.resolved, names, dir), Items(now, again, dir);
    StayCount(now, again, dir);
    ItemsDef(now, again, dir);
    ListsSplit(now, again.resolved, names, dir);
    forall j, y | 0 <= j < |stay| && y in stay[j] ensures y in wanted {
      LostMembers(now, again.resolved, names[j], dir, y);
    }
    forall c: Canon ensures ColumnBag(CanonOf, stay)[c] + Bag(CanonOf, items)[c] == multiset(Canons(wanted))[c] {
      CanonOnce(again.resolved, dir, stay, items, OrderOn(again.order, dir), c);
    }
    SameBag(ColumnBag(CanonOf, stay), Bag(CanonOf, items), multiset(Canons(wanted)));
  }

  lemma CanonOnce(resolved: Resolved, dir: Direction, stay: seq<seq<EndpointInfo>>, items: seq<EndpointInfo>, order: seq<string>, c: Canon)
    requires ValidResolved(resolved) && Apart(resolved)
    requires forall j, y | 0 <= j < |stay| && y in stay[j] :: y in RulesWanted(resolved, dir)
    requires forall y | y in items :: y in RulesWanted(resolved, dir)
    requires ColumnBag(EndpointInfoKey, stay) + Bag(EndpointInfoKey, items) == multiset(KeysWanted(resolved, dir))
    ensures ColumnBag(CanonOf, stay)[c] + Bag(CanonOf, items)[c] == multiset(Canons(RulesWanted(resolved, dir)))[c]
  {
    hide *;
    var wanted := RulesWanted(resolved, dir);
    if e :| e in wanted && CanonOf(e) == c {
      forall y | y in wanted ensures EndpointInfoKey(e) == EndpointInfoKey(y) <==> CanonOf(e) == CanonOf(y) {
        WantedKeysAgree(resolved, dir, e, y);
      }
      AgreeingKeysCountAll(EndpointInfoKey, CanonOf, stay, e);
      AgreeingKeysCount(EndpointInfoKey, CanonOf, items, e);
      CanonCounted(wanted, e);
      WantedKeys(resolved, dir, e);
      KeysWantedDef(resolved, dir);
      OneOf(ColumnBag(EndpointInfoKey, stay), Bag(EndpointInfoKey, items), KeysWanted(resolved, dir), EndpointInfoKey(e));
    } else {
      ColumnBagMembers(CanonOf, stay, c);
      BagMembers(CanonOf, items, c);
      CanonNotCounted(wanted, c);
    }
  }

  lemma OneOf<K>(a: multiset<K>, b: multiset<K>, s: set<K>, k: K)
    requires a + b == multiset(s) && k in s
    ensures a[k] + b[k] == 1
  {
    assert (a + b)[k] == 1;
  }

  lemma SameBag<K(!new)>(a: multiset<K>, b: multiset<K>, c: multiset<K>)
    requires forall k :: a[k] + b[k] == c[k]
    ensures a + b == c
  {
  }

  lemma KeysWantedDef(resolved: Resolved, dir: Direction)
    ensures KeysWanted(resolved, dir) == Wanted(DesiredBy(resolved), dir).Keys
  {
  }

  lemma CanonCounted(wanted: seq<EndpointInfo>, e: EndpointInfo)
    requires e in wanted
    ensures multiset(Canons(wanted))[CanonOf(e)] == 1
  {
    hide CanonOf;
  }

  lemma CanonNotCounted(wanted: seq<EndpointInfo>, c: Canon)
    requires forall e | e in wanted :: CanonOf(e) != c
    ensures multiset(Canons(wanted))[c] == 0
  {
    hide CanonOf;
  }

  lemma ReachedParts(now: Objects, policy: Policy, resolved: Resolved)
    requires Reached(now, policy, resolved)
    ensures ValidStore(now) && ValidResolved(resolved) && Apart(resolved) && Tidy(now, policy)
    ensures forall listing | ListsStore(now, listing) :: AllHeld(now, resolved, listing)
  {
    hide ValidStore, ValidResolved, Apart, Tidy, ListsStore, AllHeld;
  }

  lemma StayCount(now: Objects, again: Round, dir: Direction)
    requires RoundValid(now, again) && Reached(now, again.policy, again.resolved)
    ensures forall n | n in SlotOrder(now, again) :: n in now
    ensures ColumnBag(EndpointInfoKey, StayLists(now, again.resolved, SlotOrder(now, again), dir)) +
            multiset(OrderOn(again.order, dir)) == multiset(KeysWanted(again.resolved, dir))
  {
    hide RoundValid, Reached, SlotOrder, ColumnBag, OrderOn, KeysWanted, Lists, Left, HeldAtMostOnce, ListsStore, AllHeld, RuleLists, CurrentLists, ValidStore, ValidResolved, Tidy, ObjectsListed, EndpointInfoKey;
    ReachedParts(now, again.policy, again.resolved);
    SlotOrderListing(now, again);
    var names, wanted := SlotOrder(now, again), KeysWanted(again.resolved, dir);
    ListsStoreDef(now, names);
    RoundListing(now, again);
    OrderOnValid(now, again, dir);
    LeftPermuted(now, again.listing, names, wanted, dir);
    RulesNotTwice(now, again.resolved, names, dir);
    CurrentAndLeft(EndpointInfoKey, RuleLists(ObjectsListed(now, names), dir), wanted, OrderOn(again.order, dir));
  }

  lemma CancelBag<K>(a: multiset<K>, b: multiset<K>, c: multiset<K>)
    requires a + b == a + c
    ensures b == c
  {
    assert b == (a + b) - a && c == (a + c) - a;
  }

  /** The rules packed are, up to order, the rules taken away. */
  lemma ItemsAreLost(now: Objects, again: Round, dir: Direction)
    requires RoundValid(now, again) && Reached(now, again.policy, again.resolved)
    ensures forall n | n in SlotOrder(now, again) :: n in now
    ensures Bag(CanonOf, Items(now, again, dir)) == ColumnBag(CanonOf, Losts(now, again.resolved, SlotOrder(now, again), dir))
  {
    hide *;
    StayAndItems(now, again, dir);
    ReachedParts(now, again.policy, again.resolved);
    SlotOrderListing(now, again);
    var names := SlotOrder(now, again);
    HeldOn(now, again.resolved, names, dir);
    ListsSplit(now, again.resolved, names, dir);
    CancelBag(ColumnBag(CanonOf, StayLists(now, again.resolved, names, dir)),
      Bag(CanonOf, Items(now, again, dir)), ColumnBag(CanonOf, Losts(now, again.resolved, names, dir)));
  }

  // ---------------------------------------------------------------- what each object receives

  /** In direction `dir`, every object gets back what it lost. */
  ghost predicate Restored(now: Objects, again: Round, dir: Direction)
    requires RoundValid(now, again) && forall n | n in SlotOrder(now, again) :: n in now
  {
    Refills(CanonOf, LensOn(SlotsOf(now, again), dir), Items(now, again, dir), again.chunk,
      Losts(now, again.resolved, SlotOrder(now, again), dir))
  }

  lemma NoPodsLeft(now: Objects, again: Round)
    requires RoundValid(now, again) && AllHeld(now, again.resolved, again.listing)
    ensures again.order.pods == []
  {
    HeldOn(now, again.resolved, again.listing, Ingress);
    DesiredPods(again.resolved);
    PodOrderValid(now, again);
    hide *;
    NothingLeft(Itself<PodEndpoint>(), PodLists(ObjectsListed(now, again.listing)), DesiredBy(again.resolved).pods);
    ListsMembers(again.order.pods, {});
  }

  lemma PodOrderValid(now: Objects, again: Round)
    requires RoundValid(now, again)
    ensures Lists(again.order.pods, Left(Itself<PodEndpoint>(), PodLists(ObjectsListed(now, again.listing)), DesiredBy(again.resolved).pods))
  {
    hide PlanFor, MergedPlan, EndpointInfoKey, ByKey, Left, Ingresses, Egresses, PodLists, Lists, ObjectsListed, Itself;
  }

  /** The object of slot `j` when everything is packed. */
  ghost function PackedSlot(now: Objects, again: Round, j: nat): PolicyEndpoint
    requires RoundValid(now, again) && j < |SlotsOf(now, again)|
  {
    Received(SlotsOf(now, again), Items(now, again, Ingress), Items(now, again, Egress), again.chunk, j)
  }

  /** The plan is made from the packed slots. */
  lemma PlanFromSlots(now: Objects, again: Round)
    returns (modified: seq<PolicyEndpoint>, candidates: seq<PolicyEndpoint>, created: seq<PolicyEndpoint>)
    requires RoundValid(now, again) && ValidStore(now) && AllHeld(now, again.resolved, again.listing)
    ensures PlanOf(now, again) == Finish(ConfigOf(again.policy, again.chunk), modified, candidates, created)
    ensures |modified + candidates| == |SlotsOf(now, again)|
    ensures forall j :: 0 <= j < |SlotsOf(now, again)| ==> (modified + candidates)[j] == PackedSlot(now, again, j)
    ensures TakesAll(now, again) ==> created == []
  {
    hide *;
    RoundParts(now, again);
    var cfg, existing, d := ConfigOf(again.policy, again.chunk), ObjectsListed(now, again.listing), DesiredBy(again.resolved);
    NoPodsLeft(now, again);
    ItemsDef(now, again, Ingress);
    ItemsDef(now, again, Egress);
    ItemsFields(now, again);
    var packed;
    packed, modified, candidates, created := PlanParts(cfg, existing, d, again.order);
    RoundListing(now, again);
    PackedSlots(cfg, SlotsOf(now, again), Items(now, again, Ingress), Items(now, again, Egress));
    SlotsOfDef(now, again);
    SlotsSize(cfg, existing, d);
    TakesAllDef(now, again);
    forall j: nat | j < |SlotsOf(now, again)| ensures (modified + candidates)[j] == PackedSlot(now, again, j) {
      PackedSlotDef(now, again, j);
      assert (modified + candidates)[j] == packed[j];
    }
  }

  /** Every rule to be packed finds room in an existing object. */
  ghost predicate TakesAll(now: Objects, again: Round)
    requires RoundValid(now, again)
  {
    forall dir: Direction :: Offset(LensOn(SlotsOf(now, again), dir), |Items(now, again, dir)|, again.chunk, |LensOn(SlotsOf(now, again), dir)|) == |Items(now, again, dir)|
  }

  lemma LensSizes(slots: seq<PolicyEndpoint>)
    ensures |IngressLens(slots)| == |EgressLens(slots)| == |slots|
  {
  }

  lemma TakesAllDef(now: Objects, again: Round)
    requires RoundValid(now, again)
    ensures |IngressLens(SlotsOf(now, again))| == |EgressLens(SlotsOf(now, again))| == |SlotsOf(now, again)|
    ensures TakesAll(now, again) ==>
              && Offset(IngressLens(SlotsOf(now, again)), |Items(now, again, Ingress)|, again.chunk, |SlotsOf(now, again)|) == |Items(now, again, Ingress)|
              && Offset(EgressLens(SlotsOf(now, again)), |Items(now, again, Egress)|, again.chunk, |SlotsOf(now, again)|) == |Items(now, again, Egress)|
  {
    hide RoundValid, SlotsOf, Items, Offset, IngressLens, EgressLens;
    LensSizes(SlotsOf(now, again));
    if TakesAll(now, again) {
      assert LensOn(SlotsOf(now, again), Ingress) == IngressLens(SlotsOf(now, again));
      assert LensOn(SlotsOf(now, again), Egress) == EgressLens(SlotsOf(now, again));
    }
  }

  lemma ItemsFields(now: Objects, again: Round)
    requires RoundValid(now, again)
    requires forall k | k in OrderOn(again.order, Ingress) :: k in Wanted(DesiredBy(again.resolved), Ingress)
    requires forall k | k in OrderOn(again.order, Egress) :: k in Wanted(DesiredBy(again.resolved), Egress)
    ensures (forall k | k in again.order.ingress :: k in DesiredBy(again.resolved).ingress) && (forall k | k in again.order.egress :: k in DesiredBy(again.resolved).egress)
    ensures Items(now, again, Ingress) == Lookup(DesiredBy(again.resolved).ingress, again.order.ingress)
    ensures Items(now, again, Egress) == Lookup(DesiredBy(again.resolved).egress, again.order.egress)
  {
    hide *;
    DirectionFields(again.order, DesiredBy(again.resolved));
    ItemsDef(now, again, Ingress);
    ItemsDef(now, again, Egress);
  }

  lemma DirectionFields(order: Order, d: Desired<EndpointInfo>)
    ensures OrderOn(order, Ingress) == order.ingress && OrderOn(order, Egress) == order.egress
    ensures Wanted(d, Ingress) == d.ingress && Wanted(d, Egress) == d.egress
  {
  }

  lemma SlotsOfDef(now: Objects, again: Round)
    requires RoundValid(now, again)
    ensures SlotsOf(now, again) == Slots(ConfigOf(again.policy, again.chunk), ObjectsListed(now, again.listing), DesiredBy(again.resolved))
  {
    hide RoundValid, Slots;
  }

  lemma SlotsSize<H, R>(cfg: Config<H, R>, existing: seq<PolicyObject<H, R>>, d: Desired<R>)
    ensures |Slots(cfg, existing, d)| ==
            |Loaded(PurgeAll(cfg, existing, d, |existing|))| + |Bare(PurgeAll(cfg, existing, d, |existing|))|
  {
    hide Loaded, Bare, PurgeAll;
  }

  lemma PackedSlotDef(now: Objects, again: Round, j: nat)
    requires RoundValid(now, again) && j < |SlotsOf(now, again)|
    ensures |IngressLens(SlotsOf(now, again))| == |EgressLens(SlotsOf(now, again))| == |SlotsOf(now, again)|
    ensures PackedSlot(now, again, j) ==
            Received(SlotsOf(now, again), Items(now, again, Ingress), Items(now, again, Egress), again.chunk, j)
  {
    hide RoundValid, SlotsOf, Items, Received;
  }

  /** What slot `j` holds in a direction: the rules that stay and the slice it receives. */
  lemma PackedRules(now: Objects, again: Round, j: nat, dir: Direction)
    requires RoundValid(now, again) && ValidStore(now) && AllHeld(now, again.resolved, again.listing)
    requires j < |SlotsOf(now, again)|
    ensures SlotOrder(now, again)[j] in now && |LensOn(SlotsOf(now, again), dir)| == |SlotsOf(now, again)|
    ensures RulesOf(PackedSlot(now, again, j), dir) ==
            Stays(now[SlotOrder(now, again)[j]], again.resolved, dir) + Slice(LensOn(SlotsOf(now, again), dir), Items(now, again, dir), again.chunk, j)
  {
    hide RoundValid, ValidStore, AllHeld, SlotsOf, SlotOrder, Stays, Items, Slice, IngressLens, EgressLens;
    LensSizes(SlotsOf(now, again));
    SlotAt(now, again, j);
  }

  lemma PackedRest(now: Objects, again: Round, j: nat)
    requires RoundValid(now, again) && ValidStore(now) && AllHeld(now, again.resolved, again.listing)
    requires j < |SlotsOf(now, again)|
    ensures var n, o := SlotOrder(now, again)[j], PackedSlot(now, again, j);
            && n in now && o.name == n && o.pods == now[n].pods
            && o.header == now[n].header.(podIsolation := again.policy.policyTypes)
  {
    hide RoundValid, AllHeld, SlotsOf, SlotOrder, Stays, Items, Slice, IngressLens, EgressLens, ValidSpec;
    LensSizes(SlotsOf(now, again));
    SlotAt(now, again, j);
  }

  /** The slot holds what is stored, up to order, exactly when it gets back what it lost. */
  lemma SlotRestored(now: Objects, again: Round, j: nat, dir: Direction)
    requires RoundValid(now, again) && ValidStore(now) && AllHeld(now, again.resolved, again.listing)
    requires j < |SlotsOf(now, again)|
    ensures SlotOrder(now, again)[j] in now && |LensOn(SlotsOf(now, again), dir)| == |SlotsOf(now, again)|
    ensures var o := now[SlotOrder(now, again)[j]];
            Bag(CanonOf, RulesOf(o, dir)) == Bag(CanonOf, RulesOf(PackedSlot(now, again, j), dir)) <==>
            Bag(CanonOf, Slice(LensOn(SlotsOf(now, again), dir), Items(now, again, dir), again.chunk, j)) ==
            Bag(CanonOf, Lost(o, again.resolved, dir))
  {
    PackedRules(now, again, j, dir);
    var o := now[SlotOrder(now, again)[j]];
    var slice := Slice(LensOn(SlotsOf(now, again), dir), Items(now, again, dir), again.chunk, j);
    LostSplit(o, again.resolved, dir);
    hide *;
    BagConcat(CanonOf, Stays(o, again.resolved, dir), slice);
    if Bag(CanonOf, RulesOf(o, dir)) == Bag(CanonOf, RulesOf(PackedSlot(now, again, j), dir)) {
      CancelBag(Bag(CanonOf, Stays(o, again.resolved, dir)), Bag(CanonOf, slice), Bag(CanonOf, Lost(o, again.resolved, dir)));
    }
  }

  lemma LostSplit(o: PolicyEndpoint, resolved: Resolved, dir: Direction)
    ensures Bag(CanonOf, RulesOf(o, dir)) == Bag(CanonOf, Stays(o, resolved, dir)) + Bag(CanonOf, Lost(o, resolved, dir))
    ensures |RulesOf(o, dir)| == |Stays(o, resolved, dir)| + |Lost(o, resolved, dir)|
  {
    hide Bag, CanonOf, RulesOf, EndpointInfoKey;
    SplitBag(EndpointInfoKey, CanonOf, RulesOf(o, dir), KeysWanted(resolved, dir));
  }

  // ---------------------------------------------------------------- skipped updates

  /** The two objects hold the same rules up to order. */
  ghost predicate SameRules(a: PolicyEndpoint, o: PolicyEndpoint) {
    Bag(CanonOf, a.ingress) == Bag(CanonOf, o.ingress) && Bag(CanonOf, a.egress) == Bag(CanonOf, o.egress)
  }

  /** The update of a slot is skipped exactly when it holds what is stored, up to order. */
  lemma SkippedExactly(now: Objects, again: Round, j: nat, m: PolicyEndpoint)
    requires RoundValid(now, again) && Reached(now, again.policy, again.resolved) && AllHeld(now, again.resolved, again.listing)
    requires j < |SlotsOf(now, again)| && PackedSlot(now, again, j) in PlanOf(now, again).update
    requires MergedObject(PackedSlot(now, again, j), m)
    ensures SlotOrder(now, again)[j] in now && m.name == SlotOrder(now, again)[j]
    ensures SpecEqual(now[m.name], m) <==> SameRules(now[m.name], PackedSlot(now, again, j))
  {
    hide *;
    var o, n := PackedSlot(now, again, j), SlotOrder(now, again)[j];
    ReachedParts(now, again.policy, again.resolved);
    PackedRest(now, again, j);
    SurvivesUpdate(PlanOf(now, again), o);
    MergedLike(now, again, o, m);
    SurvivorsValid(now, again, o);
    MergedValid(o, m);
    MergedName(o, m);
    TidyAt(now, again.policy, n);
    StoredValid(now, n);
    SkippedFrom(now[n], o, m, again.policy);
  }

  lemma SurvivesUpdate(p: Plan<PolicyHeader, EndpointInfo>, o: PolicyEndpoint)
    requires o in p.update
    ensures o in Surviving(p)
  {
  }

  lemma MergedName(o: PolicyEndpoint, m: PolicyEndpoint)
    requires MergedObject(o, m)
    ensures m.name == o.name && m.header == o.header && m.pods == o.pods
  {
    hide CombinedFrom;
  }

  lemma MergedValid(o: PolicyEndpoint, m: PolicyEndpoint)
    requires ValidSpec(o) && MergedObject(o, m)
    ensures ValidSpec(m)
  {
    hide CombinedFrom, ValidSpec, AdmittedBy, MergedObject;
    MergedMeaning(o, m, Network((x, y) => false, (x, y) => false), Ingress, Flow(Address(""), "", 0));
  }

  lemma TidyAt(now: Objects, policy: Policy, n: string)
    requires Tidy(now, policy) && n in now
    ensures multiset(now[n].header.podIsolation) == multiset(policy.policyTypes)
  {
    hide IsBare;
  }

  lemma StoredValid(now: Objects, n: string)
    requires ValidStore(now) && n in now
    ensures ValidSpec(now[n])
  {
    hide ValidSpec;
  }

  lemma SkippedFrom(a: PolicyEndpoint, o: PolicyEndpoint, m: PolicyEndpoint, policy: Policy)
    requires ValidSpec(a) && ValidSpec(m) && StoredLike(m, o) && m.header == o.header
    requires o.pods == a.pods && o.header == a.header.(podIsolation := policy.policyTypes)
    requires multiset(a.header.podIsolation) == multiset(policy.policyTypes)
    ensures SpecEqual(a, m) <==> SameRules(a, o)
  {
    SpecEqualExact(a, m);
    hide SpecEqual, ValidSpec, CanonOf, Bag;
  }

  // ---------------------------------------------------------------- quiet rounds

  /** In direction `dir`, slot `j` gets back what it lost. */
  ghost predicate SlotBack(now: Objects, again: Round, j: nat, dir: Direction)
    requires RoundValid(now, again) && (forall n | n in SlotOrder(now, again) :: n in now)
    requires j < |SlotsOf(now, again)| == |LensOn(SlotsOf(now, again), dir)|
  {
    Bag(CanonOf, Slice(LensOn(SlotsOf(now, again), dir), Items(now, again, dir), again.chunk, j)) ==
    Bag(CanonOf, Losts(now, again.resolved, SlotOrder(now, again), dir)[j])
  }

  lemma RestoredDef(now: Objects, again: Round, dir: Direction)
    requires RoundValid(now, again) && forall n | n in SlotOrder(now, again) :: n in now
    requires |LensOn(SlotsOf(now, again), dir)| == |SlotsOf(now, again)|
    ensures Restored(now, again, dir) <==>
            forall j: nat | j < |SlotsOf(now, again)| :: SlotBack(now, again, j, dir)
  {
    hide RoundValid, SlotsOf, SlotOrder, Items, LensOn, Slice, Bag, CanonOf, Lost;
    assert |SlotOrder(now, again)| == |SlotsOf(now, again)|;
    var lens, items, losts := LensOn(SlotsOf(now, again), dir), Items(now, again, dir), Losts(now, again.resolved, SlotOrder(now, again), dir);
    if forall j: nat | j < |SlotsOf(now, again)| :: SlotBack(now, again, j, dir) {
      forall j: nat | j < |lens| ensures Bag(CanonOf, Slice(lens, items, again.chunk, j)) == Bag(CanonOf, losts[j]) {
        assert SlotBack(now, again, j, dir);
      }
    }
  }

  /** Slot `j` holds what is stored, up to order. */
  ghost predicate SlotSame(now: Objects, again: Round, j: nat)
    requires RoundValid(now, again) && j < |SlotsOf(now, again)|
  {
    SlotOrder(now, again)[j] in now && SameRules(now[SlotOrder(now, again)[j]], PackedSlot(now, again, j))
  }

  lemma SlotsOrdered(now: Objects, again: Round)
    requires RoundValid(now, again) && Reached(now, again.policy, again.resolved)
    ensures forall n | n in SlotOrder(now, again) :: n in now
    ensures Lists(SlotOrder(now, again), now.Keys)
    ensures AllHeld(now, again.resolved, again.listing)
  {
    hide *;
    ReachedParts(now, again.policy, again.resolved);
    SlotOrderListing(now, again);
    ListsStoreDef(now, SlotOrder(now, again));
    RoundListing(now, again);
  }

  lemma SlotSameOrBack(now: Objects, again: Round, j: nat)
    requires RoundValid(now, again) && ValidStore(now) && AllHeld(now, again.resolved, again.listing)
    requires forall n | n in SlotOrder(now, again) :: n in now
    requires j < |SlotsOf(now, again)| == |LensOn(SlotsOf(now, again), Ingress)| == |LensOn(SlotsOf(now, again), Egress)|
    ensures SlotSame(now, again, j) <==> SlotBack(now, again, j, Ingress) && SlotBack(now, again, j, Egress)
  {
    SlotRestored(now, again, j, Ingress);
    SlotRestored(now, again, j, Egress);
    hide RoundValid, ValidStore, AllHeld, SlotsOf, SlotOrder, Items, LensOn, Slice, Bag, CanonOf, PackedSlot, Lost;
  }

  lemma AllSame(now: Objects, again: Round)
    requires RoundValid(now, again) && Reached(now, again.policy, again.resolved)
    ensures forall n | n in SlotOrder(now, again) :: n in now
    ensures Restored(now, again, Ingress) && Restored(now, again, Egress) <==>
            forall j: nat | j < |SlotsOf(now, again)| :: SlotSame(now, again, j)
  {
    hide RoundValid, Reached, SlotsOf, SlotOrder, Items, LensOn, Slice, Bag, CanonOf, Restored, RulesOf, PackedSlot, Lost, AllHeld, Lists, ValidStore, ValidResolved, Apart, Tidy;
    SlotsOrdered(now, again);
    ReachedParts(now, again.policy, again.resolved);
    LensSizes(SlotsOf(now, again));
    LensOnSize(SlotsOf(now, again), Ingress);
    LensOnSize(SlotsOf(now, again), Egress);
    RestoredDef(now, again, Ingress);
    RestoredDef(now, again, Egress);
    forall j: nat | j < |SlotsOf(now, again)|
      ensures SlotOrder(now, again)[j] in now
      ensures SlotSame(now, again, j) <==> SlotBack(now, again, j, Ingress) && SlotBack(now, again, j, Egress)
    {
      SlotSameOrBack(now, again, j);
    }
  }

  lemma LensOnSize(slots: seq<PolicyEndpoint>, dir: Direction)
    ensures |LensOn(slots, dir)| == |slots|
  {
    LensSizes(slots);
    hide IngressLens, EgressLens;
  }

  lemma SameBareness(now: Objects, again: Round, j: nat)
    requires RoundValid(now, again) && ValidStore(now) && AllHeld(now, again.resolved, again.listing)
    requires j < |SlotsOf(now, again)| && SlotSame(now, again, j)
    ensures SlotOrder(now, again)[j] in now
    ensures IsBare(now[SlotOrder(now, again)[j]]) <==> IsBare(PackedSlot(now, again, j))
  {
    PackedRest(now, again, j);
    var a, o := now[SlotOrder(now, again)[j]], PackedSlot(now, again, j);
    hide RoundValid, ValidStore, AllHeld, SlotsOf, SlotOrder, PackedSlot, Bag, CanonOf;
    BagSize(CanonOf, a.ingress);
    BagSize(CanonOf, o.ingress);
    BagSize(CanonOf, a.egress);
    BagSize(CanonOf, o.egress);
  }

  lemma RestoredTakesAll(now: Objects, again: Round)
    requires RoundValid(now, again) && Reached(now, again.policy, again.resolved)
    requires forall n | n in SlotOrder(now, again) :: n in now
    requires Restored(now, again, Ingress) && Restored(now, again, Egress)
    ensures TakesAll(now, again)
  {
    hide RoundValid, Reached, SlotsOf, SlotOrder, Items, LensOn, Refills, Bag, ColumnBag, CanonOf, Losts, Offset;
    forall dir: Direction
      ensures Offset(LensOn(SlotsOf(now, again), dir), |Items(now, again, dir)|, again.chunk, |LensOn(SlotsOf(now, again), dir)|) == |Items(now, again, dir)|
    {
      ItemsAreLost(now, again, dir);
      assert Restored(now, again, dir);
      RefillsTakesAll(CanonOf, LensOn(SlotsOf(now, again), dir), Items(now, again, dir), again.chunk,
        Losts(now, again.resolved, SlotOrder(now, again), dir));
    }
  }

  /** Slots stay loaded when several objects are stored. */
  lemma PackedBareness(now: Objects, again: Round, packed: seq<PolicyEndpoint>)
    requires RoundValid(now, again) && Reached(now, again.policy, again.resolved)
    requires |packed| == |SlotsOf(now, again)|
    requires forall j: nat | j < |packed| :: packed[j] == PackedSlot(now, again, j) && SlotSame(now, again, j)
    ensures |packed| == 1 || (packed != [] && forall o | o in packed :: !IsBare(o))
  {
    hide *;
    SlotsOrdered(now, again);
    ReachedParts(now, again.policy, again.resolved);
    TidySize(now, again.policy);
    ListsMembers(SlotOrder(now, again), now.Keys);
    assert |now.Keys| == |now|;
    if |packed| > 1 {
      forall o | o in packed ensures !IsBare(o) {
        var j: nat :| j < |packed| && packed[j] == o;
        SameBareness(now, again, j);
      }
    }
  }

  lemma TidySize(now: Objects, policy: Policy)
    requires Tidy(now, policy)
    ensures |now| > 0
    ensures |now| > 1 ==> forall n | n in now :: !IsBare(now[n])
  {
    hide IsBare;
  }

  lemma {:induction false} NoUpdateWrites(s: Objects, update: seq<PolicyEndpoint>)
    ensures UpdateWrites(s, update) == [] <==> forall u | u in update :: u.name in s && SpecEqual(s[u.name], u)
  {
    hide SpecEqual;
    if update != [] {
      var init, last := update[..|update| - 1], update[|update| - 1];
      NoUpdateWrites(s, init);
      assert update == init + [last];
      assert last in update;
    }
  }

  lemma NoWrites(s: Objects, r: Round)
    requires |r.names| == |r.plan.create|
    ensures Writes(s, r) == [] <==> r.plan.create == [] && r.plan.delete == [] && UpdateWrites(s, r.plan.update) == []
  {
    hide UpdateWrites;
  }

  lemma DeletesPlanned(s: Objects, r: Round)
    requires RoundValid(s, r)
    ensures r.plan.delete == PlanOf(s, r).delete
  {
    hide PlanFor, ValidOrder;
  }

  lemma SlotIndex(now: Objects, again: Round, packed: seq<PolicyEndpoint>, o: PolicyEndpoint) returns (j: nat)
    requires RoundValid(now, again) && |packed| == |SlotsOf(now, again)| && o in packed
    requires forall j: nat | j < |packed| :: packed[j] == PackedSlot(now, again, j)
    ensures j < |SlotsOf(now, again)| && o == PackedSlot(now, again, j)
  {
    hide RoundValid, SlotsOf, PackedSlot;
    j :| j < |packed| && packed[j] == o;
  }

  /** A round in which every object gets back what it lost writes nothing. */
  lemma RestoredQuiet(now: Objects, again: Round)
    requires RoundValid(now, again) && Reached(now, again.policy, again.resolved)
    requires forall n | n in SlotOrder(now, again) :: n in now
    requires Restored(now, again, Ingress) && Restored(now, again, Egress)
    ensures |again.names| == |again.plan.create| && Writes(now, again) == []
  {
    hide *;
    SlotsOrdered(now, again);
    ReachedParts(now, again.policy, again.resolved);
    RestoredTakesAll(now, again);
    AllSame(now, again);
    var modified, candidates, created := PlanFromSlots(now, again);
    var packed := modified + candidates;
    PackedBareness(now, again, packed);
    FinishInPlace(ConfigOf(again.policy, again.chunk), modified, candidates);
    PlanSizes(now, again);
    RoundSizes(now, again);
    DeletesPlanned(now, again);
    forall m | m in again.plan.update ensures m.name in now && SpecEqual(now[m.name], m) {
      var i: nat :| i < |again.plan.update| && again.plan.update[i] == m;
      var j := SlotIndex(now, again, packed, PlanOf(now, again).update[i]);
      SkippedExactly(now, again, j, m);
      SlotSameDef(now, again, j);
    }
    NoUpdateWrites(now, again.plan.update);
    NoWrites(now, again);
  }

  lemma SlotSameDef(now: Objects, again: Round, j: nat)
    requires RoundValid(now, again) && j < |SlotsOf(now, again)| && SlotOrder(now, again)[j] in now
    ensures SlotSame(now, again, j) <==> SameRules(now[SlotOrder(now, again)[j]], PackedSlot(now, again, j))
  {
    hide RoundValid, SlotsOf, SlotOrder, PackedSlot, SameRules;
  }

  /** A round that writes nothing gives every object back what it lost. */
  lemma QuietRestored(now: Objects, again: Round)
    requires RoundValid(now, again) && Reached(now, again.policy, again.resolved)
    requires |again.names| == |again.plan.create| && Writes(now, again) == []
    ensures forall n | n in SlotOrder(now, again) :: n in now
    ensures Restored(now, again, Ingress) && Restored(now, again, Egress)
  {
    hide *;
    SlotsOrdered(now, again);
    ReachedParts(now, again.policy, again.resolved);
    NoWrites(now, again);
    NoUpdateWrites(now, again.plan.update);
    PlanSizes(now, again);
    DeletesPlanned(now, again);
    var modified, candidates, created := PlanFromSlots(now, again);
    forall j: nat | j < |SlotsOf(now, again)| ensures SlotSame(now, again, j) {
      var o := PackedSlot(now, again, j);
      assert (modified + candidates)[j] == o;
      FinishUpdatesAll(ConfigOf(again.policy, again.chunk), modified, candidates, created, o);
      var i: nat :| i < |PlanOf(now, again).update| && PlanOf(now, again).update[i] == o;
      var m := again.plan.update[i];
      SkippedExactly(now, again, j, m);
      SlotSameDef(now, again, j);
    }
    AllSame(now, again);
  }
}
