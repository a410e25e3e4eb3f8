/** The store that a complete round leaves, up to the order of lists and of ports and
    exceptions inside rules. */
module RoundResult {
  import opened Basics
  import opened Permutations
  import opened PolicyInfo
  import opened Purge
  import opened RuleKeys
  import opened Combine
  import Sorting
  import opened Reconciler
  import opened Placement
  import opened Equality
  import opened Store
  import opened WriteEffects
  import opened Convergence

  /** No two different desired rules of a direction would be merged. */
  ghost predicate NoSharedIdentity(rules: seq<EndpointInfo>) {
    forall a, b | a in rules && b in rules :: CombineKey(a) == CombineKey(b) ==> a == b
  }

  /** The same in both directions. */
  ghost predicate Apart(r: Resolved) {
    NoSharedIdentity(r.ingress) && NoSharedIdentity(r.egress)
  }

  lemma ApartOn(r: Resolved, dir: Direction)
    requires Apart(r)
    ensures NoSharedIdentity(RulesWanted(r, dir))
  {
    hide NoSharedIdentity;
  }

  // ---------------------------------------------------------------- merging only reorders

  lemma KeyCountedOnce(s: Objects, r: Round, o: PolicyEndpoint, dir: Direction, k: string)
    requires ValidStore(s) && RoundValid(s, r) && o in Surviving(PlanOf(s, r))
    ensures Bag(EndpointInfoKey, RulesOf(o, dir))[k] <= 1
  {
    hide *;
    var survivors := Surviving(PlanOf(s, r));
    PlacementOn(s, r, dir);
    ListAt(survivors, dir);
    var i: nat :| i < |survivors| && survivors[i] == o;
    BagInColumn(EndpointInfoKey, RuleLists(survivors, dir), i, k);
  }

  /** Within a survivor no two rules would be merged. */
  lemma SurvivorDistinct(s: Objects, r: Round, o: PolicyEndpoint, dir: Direction)
    requires ValidStore(s) && RoundValid(s, r) && o in Surviving(PlanOf(s, r))
    requires NoSharedIdentity(RulesWanted(r.resolved, dir))
    ensures DistinctCombineKeys(RulesOf(o, dir))
  {
    hide PlanOf, RoundValid, EndpointInfoKey, CombineKey, ValidStore;
    var rules := RulesOf(o, dir);
    forall i, j | 0 <= i < j < |rules| ensures CombineKey(rules[i]) != CombineKey(rules[j]) {
      SurvivorRule(s, r, o, dir, rules[i]);
      SurvivorRule(s, r, o, dir, rules[j]);
      KeyCountedOnce(s, r, o, dir, EndpointInfoKey(rules[i]));
      if rules[i] == rules[j] {
        BagPosition(EndpointInfoKey, rules, i, j);
      }
    }
  }

  lemma MergedReorders(s: Objects, r: Round, o: PolicyEndpoint, m: PolicyEndpoint, dir: Direction)
    requires ValidStore(s) && RoundValid(s, r) && o in Surviving(PlanOf(s, r)) && MergedObject(o, m)
    requires NoSharedIdentity(RulesWanted(r.resolved, dir))
    ensures multiset(RulesOf(m, dir)) == multiset(RulesOf(o, dir))
  {
    hide PlanOf, RoundValid, CombineKey, ValidStore, CombinedFrom, DistinctCombineKeys, NoSharedIdentity, ValidRule;
    SurvivorDistinct(s, r, o, dir);
    SurvivorsValid(s, r, o);
    CombineOnlyReorders(RulesOf(o, dir), RulesOf(m, dir));
  }

  /** All a survivor's rules are desired, and equal up to order means equal. */
  lemma SameCanonSameRule(a: EndpointInfo, b: EndpointInfo, rules: seq<EndpointInfo>)
    requires NoSharedIdentity(rules) && a in rules && b in rules && CanonOf(a) == CanonOf(b)
    ensures a == b
  {
    hide CombineKey;
    Sorting.SortCanonical(a.except, b.except);
    CombineKeyFrom(a, b);
  }

  // ---------------------------------------------------------------- the store after a round

  /** The stored object is the planned survivor up to its name, the order of its lists and the
      order of ports and exceptions inside its rules. */
  ghost predicate StoredLike(a: PolicyEndpoint, o: PolicyEndpoint) {
    && a.header.podSelector == o.header.podSelector && a.header.policyRef == o.header.policyRef
    && multiset(a.header.podIsolation) == multiset(o.header.podIsolation)
    && Bag(CanonOf, a.ingress) == Bag(CanonOf, o.ingress) && Bag(CanonOf, a.egress) == Bag(CanonOf, o.egress)
    && multiset(a.pods) == multiset(o.pods)
  }

  lemma MergedLike(s: Objects, r: Round, o: PolicyEndpoint, m: PolicyEndpoint)
    requires ValidStore(s) && RoundValid(s, r) && o in Surviving(PlanOf(s, r)) && MergedObject(o, m) && Apart(r.resolved)
    ensures StoredLike(m, o)
  {
    hide *;
    ApartOn(r.resolved, Ingress);
    ApartOn(r.resolved, Egress);
    MergedReorders(s, r, o, m, Ingress);
    MergedReorders(s, r, o, m, Egress);
    BagPermute(CanonOf, RulesOf(m, Ingress), RulesOf(o, Ingress));
    BagPermute(CanonOf, RulesOf(m, Egress), RulesOf(o, Egress));
    MergedLikeDef(o, m);
  }

  lemma MergedLikeDef(o: PolicyEndpoint, m: PolicyEndpoint)
    requires MergedObject(o, m)
    requires Bag(CanonOf, RulesOf(m, Ingress)) == Bag(CanonOf, RulesOf(o, Ingress))
    requires Bag(CanonOf, RulesOf(m, Egress)) == Bag(CanonOf, RulesOf(o, Egress))
    ensures StoredLike(m, o)
  {
    hide CombinedFrom, CanonOf, Bag;
  }

  /** An object whose update was skipped is like the planned one. */
  lemma SkippedLike(s: Objects, n: string, o: PolicyEndpoint, m: PolicyEndpoint)
    requires ValidStore(s) && n in s && SpecEqual(s[n], m) && ValidSpec(m) && StoredLike(m, o)
    ensures StoredLike(s[n], o)
  {
    SpecEqualExact(s[n], m);
    hide SpecEqual, ValidSpec, CanonOf, Bag;
  }


  /** An order in which the API may list the objects. */
  ghost predicate ListsStore(now: Objects, listing: seq<string>) {
    Lists(listing, now.Keys) && forall n | n in listing :: n in now
  }

  ghost function StoreAfter(s: Objects, r: Round): Objects
    requires RoundValid(s, r)
  {
    ApplyAll(s, Writes(s, r))
  }

  /** The names of the objects after the round, in the order of the plan. */
  ghost function PlanNamesOf(r: Round): seq<string> {
    r.names + Map(NameColumn(), r.plan.update)
  }

  lemma PlanSizes(s: Objects, r: Round)
    requires RoundValid(s, r)
    ensures |PlanOf(s, r).create| == |r.plan.create| == |r.names| && |PlanOf(s, r).update| == |r.plan.update|
    ensures |PlanNamesOf(r)| == |Surviving(PlanOf(s, r))|
    ensures forall i :: 0 <= i < |r.names| ==> MergedObject(PlanOf(s, r).create[i], r.plan.create[i])
    ensures forall i :: 0 <= i < |r.plan.update| ==> MergedObject(PlanOf(s, r).update[i], r.plan.update[i])
  {
    hide PlanFor, ValidOrder, MergedObject;
  }

  lemma CreatedLike(s: Objects, r: Round, i: nat)
    requires ValidStore(s) && RoundValid(s, r) && Apart(r.resolved) && i < |r.names|
    ensures r.names[i] in StoreAfter(s, r) && i < |PlanOf(s, r).create|
    ensures StoredLike(StoreAfter(s, r)[r.names[i]], PlanOf(s, r).create[i])
  {
    RoundSizes(s, r);
    PlanSizes(s, r);
    hide RoundValid, PlanOf, Writes, ApplyAll, NamesApart, FreshNames, MergedObject, Apart, ValidStore;
    RoundNames(s, r);
    CreatedInStore(s, r, i);
    assert PlanOf(s, r).create[i] in Surviving(PlanOf(s, r));
    MergedLike(s, r, PlanOf(s, r).create[i], r.plan.create[i]);
  }

  lemma UpdatedLike(s: Objects, r: Round, i: nat)
    requires ValidStore(s) && RoundValid(s, r) && Apart(r.resolved) && i < |r.plan.update|
    ensures r.plan.update[i].name in StoreAfter(s, r) && i < |PlanOf(s, r).update|
    ensures StoredLike(StoreAfter(s, r)[r.plan.update[i].name], PlanOf(s, r).update[i])
  {
    RoundSizes(s, r);
    PlanSizes(s, r);
    hide RoundValid, PlanOf, Writes, ApplyAll, NamesApart, FreshNames, MergedObject, Apart, ValidStore, SpecEqual, ValidSpec, StoredLike;
    RoundNames(s, r);
    UpdatedInStore(s, r, i);
    var o, m := PlanOf(s, r).update[i], r.plan.update[i];
    assert o in Surviving(PlanOf(s, r));
    UpdateValid(s, r, i);
    MergedLike(s, r, o, m);
    if StoreAfter(s, r)[m.name] != m {
      SkippedLike(s, m.name, o, m);
    }
  }

  /** After the round, stored objects and survivors correspond one to one. */
  lemma StoredAtIndex(s: Objects, r: Round, i: nat)
    requires ValidStore(s) && RoundValid(s, r) && Apart(r.resolved) && i < |PlanNamesOf(r)|
    ensures |PlanNamesOf(r)| == |Surviving(PlanOf(s, r))| && PlanNamesOf(r)[i] in StoreAfter(s, r)
    ensures StoredLike(StoreAfter(s, r)[PlanNamesOf(r)[i]], Surviving(PlanOf(s, r))[i])
  {
    hide *;
    PlanSizes(s, r);
    SurvivingAt(PlanOf(s, r), i);
    PlanNameAt(r, i);
    if i < |r.names| {
      CreatedLike(s, r, i);
    } else {
      UpdatedLike(s, r, i - |r.names|);
    }
  }

  lemma SurvivingAt(p: Plan<PolicyHeader, EndpointInfo>, i: nat)
    requires i < |Surviving(p)|
    ensures |Surviving(p)| == |p.create| + |p.update|
    ensures Surviving(p)[i] == if i < |p.create| then p.create[i] else p.update[i - |p.create|]
  {
  }

  lemma PlanNameAt(r: Round, i: nat)
    requires i < |PlanNamesOf(r)|
    ensures |PlanNamesOf(r)| == |r.names| + |r.plan.update|
    ensures PlanNamesOf(r)[i] == if i < |r.names| then r.names[i] else r.plan.update[i - |r.names|].name
  {
  }

  lemma PlanNamesDistinct(s: Objects, r: Round, i: nat, j: nat)
    requires FreshNames(s, r.names) && NamesApart(s, r.plan.update, r.plan.delete)
    requires i < j < |PlanNamesOf(r)|
    ensures PlanNamesOf(r)[i] != PlanNamesOf(r)[j]
  {
    hide PlanNamesOf;
    PlanNameAt(r, i);
    PlanNameAt(r, j);
  }

  lemma PlanNamesMember(s: Objects, r: Round, n: string)
    requires ValidStore(s) && RoundValid(s, r)
    ensures n in PlanNamesOf(r) <==> n in StoreAfter(s, r)
  {
    hide *;
    RoundSizes(s, r);
    RoundNames(s, r);
    StoreAfterDef(s, r);
    if n in PlanNamesOf(r) {
      var i: nat :| i < |PlanNamesOf(r)| && PlanNamesOf(r)[i] == n;
      PlanNameAt(r, i);
      if i < |r.names| {
        CreatedInStore(s, r, i);
      } else {
        UpdatedInStore(s, r, i - |r.names|);
        UpdatedIsThere(s, StoreAfter(s, r), r.plan.update[i - |r.names|]);
      }
    }
    if n in StoreAfter(s, r) {
      OnlySurvivors(s, r, n);
      PlanNamesHas(r, n);
    }
  }

  lemma StoreAfterDef(s: Objects, r: Round)
    requires RoundValid(s, r) && |r.names| == |r.plan.create|
    ensures StoreAfter(s, r) == ApplyAll(s, Writes(s, r))
  {
    hide RoundValid, ApplyAll, Writes;
  }

  lemma UpdatedIsThere(s: Objects, now: Objects, u: PolicyEndpoint)
    requires UpdatedIn(s, now, u)
    ensures u.name in now
  {
    hide SpecEqual;
  }

  lemma PlanNamesHas(r: Round, n: string)
    requires n in r.names || HasName(r.plan.update, n)
    ensures n in PlanNamesOf(r)
  {
    if n !in r.names {
      var i :| 0 <= i < |r.plan.update| && r.plan.update[i].name == n;
      assert PlanNamesOf(r)[|r.names| + i] == n;
    }
  }

  lemma PlanNamesList(s: Objects, r: Round)
    requires ValidStore(s) && RoundValid(s, r)
    ensures Lists(PlanNamesOf(r), StoreAfter(s, r).Keys)
  {
    hide *;
    RoundSizes(s, r);
    RoundNames(s, r);
    forall i: nat, j: nat | i < j < |PlanNamesOf(r)| ensures PlanNamesOf(r)[i] != PlanNamesOf(r)[j] {
      PlanNamesDistinct(s, r, i, j);
    }
    forall n ensures n in PlanNamesOf(r) <==> n in StoreAfter(s, r) {
      PlanNamesMember(s, r, n);
    }
    DistinctLists(PlanNamesOf(r), StoreAfter(s, r).Keys);
  }

  function RulesAt(now: Objects, dir: Direction): string -> seq<EndpointInfo> {
    (n: string) => if n in now then RulesOf(now[n], dir) else []
  }

  function PodsAt(now: Objects): string -> seq<PodEndpoint> {
    (n: string) => if n in now then now[n].pods else []
  }

  lemma ListedMaps(now: Objects, listing: seq<string>, dir: Direction)
    requires forall n | n in listing :: n in now
    ensures RuleLists(ObjectsListed(now, listing), dir) == Map(RulesAt(now, dir), listing)
    ensures PodLists(ObjectsListed(now, listing)) == Map(PodsAt(now), listing)
  {
  }

  lemma LikeRules(a: PolicyEndpoint, o: PolicyEndpoint, dir: Direction)
    requires StoredLike(a, o)
    ensures Bag(CanonOf, RulesOf(a, dir)) == Bag(CanonOf, RulesOf(o, dir))
  {
    hide CanonOf, Bag;
  }

  lemma RulesAtDef(now: Objects, n: string, dir: Direction)
    requires n in now
    ensures RulesAt(now, dir)(n) == RulesOf(now[n], dir)
  {
  }

  /** Stored objects hold the rules of the survivors, up to order, whatever the order of listing. */
  lemma StoredRuleBag(s: Objects, r: Round, listing: seq<string>, dir: Direction)
    requires ValidStore(s) && RoundValid(s, r) && Apart(r.resolved) && ListsStore(StoreAfter(s, r), listing)
    ensures ColumnBag(CanonOf, RuleLists(ObjectsListed(StoreAfter(s, r), listing), dir)) ==
            ColumnBag(CanonOf, RuleLists(Surviving(PlanOf(s, r)), dir))
  {
    hide *;
    var now, survivors, names := StoreAfter(s, r), Surviving(PlanOf(s, r)), PlanNamesOf(r);
    ListsStoreDef(now, listing);
    ListedMaps(now, listing, dir);
    PlanNamesList(s, r);
    ListAt(survivors, dir);
    PlanSizes(s, r);
    SameListing(listing, names, now.Keys);
    ColumnBagPermute(CanonOf, RulesAt(now, dir), listing, names);
    var cols := Map(RulesAt(now, dir), names);
    forall i: nat | i < |names| ensures Bag(CanonOf, cols[i]) == Bag(CanonOf, RuleLists(survivors, dir)[i]) {
      StoredAtIndex(s, r, i);
      LikeRules(now[names[i]], survivors[i], dir);
      RulesAtDef(now, names[i], dir);
    }
    ColumnBagPointwise(CanonOf, cols, RuleLists(survivors, dir));
  }

  lemma ListsStoreDef(now: Objects, listing: seq<string>)
    requires ListsStore(now, listing)
    ensures Lists(listing, now.Keys) && forall n | n in listing :: n in now
  {
  }

  /** Keys that agree on the entries of lists count them alike over all lists. */
  lemma {:induction false} AgreeingKeysCountAll<T, K, L>(f: T -> K, g: T -> L, cols: seq<seq<T>>, x: T)
    requires forall i, y | 0 <= i < |cols| && y in cols[i] :: f(x) == f(y) <==> g(x) == g(y)
    ensures ColumnBag(f, cols)[f(x)] == ColumnBag(g, cols)[g(x)]
  {
    hide Bag;
    if cols != [] {
      AgreeingKeysCountAll(f, g, cols[..|cols| - 1], x);
      AgreeingKeysCount(f, g, cols[|cols| - 1], x);
    }
  }

  lemma SurvivorKeysAgree(s: Objects, r: Round, dir: Direction, e: EndpointInfo)
    requires ValidStore(s) && RoundValid(s, r) && Apart(r.resolved) && e in RulesWanted(r.resolved, dir)
    ensures var cols := RuleLists(Surviving(PlanOf(s, r)), dir);
            forall i, y | 0 <= i < |cols| && y in cols[i] ::
              EndpointInfoKey(e) == EndpointInfoKey(y) <==> CanonOf(e) == CanonOf(y)
  {
    var survivors := Surviving(PlanOf(s, r));
    hide *;
    var cols := RuleLists(survivors, dir);
    ListAt(survivors, dir);
    ApartOn(r.resolved, dir);
    RoundParts(s, r);
    WantedValid(r.resolved, dir);
    forall i, y | 0 <= i < |cols| && y in cols[i]
      ensures EndpointInfoKey(e) == EndpointInfoKey(y) <==> CanonOf(e) == CanonOf(y)
    {
      SurvivorRule(s, r, survivors[i], dir, y);
      if CanonOf(e) == CanonOf(y) {
        SameCanonSameRule(e, y, RulesWanted(r.resolved, dir));
      }
      if EndpointInfoKey(e) == EndpointInfoKey(y) {
        EndpointInfoKeyInjective(e, y);
      }
    }
  }

  lemma WantedValid(r: Resolved, dir: Direction)
    requires ValidResolved(r)
    ensures forall e | e in RulesWanted(r, dir) :: ValidRule(e)
  {
    hide ValidRule;
  }

  /** The rules of a list up to order. */
  ghost function Canons(rules: seq<EndpointInfo>): set<Canon> { set e | e in rules :: CanonOf(e) }

  lemma WantedKeys(r: Resolved, dir: Direction, e: EndpointInfo)
    requires e in RulesWanted(r, dir)
    ensures EndpointInfoKey(e) in Wanted(DesiredBy(r), dir).Keys
  {
    hide EndpointInfoKey;
  }

  /** The survivors hold every desired rule once, and no two of them are equal up to order. */
  lemma SurvivorCanons(s: Objects, r: Round, dir: Direction)
    requires ValidStore(s) && RoundValid(s, r) && Apart(r.resolved)
    ensures ColumnBag(CanonOf, RuleLists(Surviving(PlanOf(s, r)), dir)) == multiset(Canons(RulesWanted(r.resolved, dir)))
  {
    var wanted := RulesWanted(r.resolved, dir);
    hide PlanOf, RoundValid, EndpointInfoKey, ValidStore, ColumnBag, Wanted, DesiredBy, CanonOf, Apart, RuleLists, RulesOf;
    var survivors := Surviving(PlanOf(s, r));
    var cols := RuleLists(survivors, dir);
    ListAt(survivors, dir);
    PlacementOn(s, r, dir);
    forall c: Canon ensures ColumnBag(CanonOf, cols)[c] == multiset(Canons(wanted))[c] {
      if e :| e in wanted && CanonOf(e) == c {
        SurvivorKeysAgree(s, r, dir, e);
        AgreeingKeysCountAll(EndpointInfoKey, CanonOf, cols, e);
        WantedKeys(r.resolved, dir, e);
      } else {
        ColumnBagMembers(CanonOf, cols, c);
        if c in ColumnBag(CanonOf, cols) {
          var i, y :| 0 <= i < |cols| && y in cols[i] && CanonOf(y) == c;
          SurvivorRule(s, r, survivors[i], dir, y);
        }
      }
    }
  }

  lemma PodListAt(objs: seq<PolicyEndpoint>)
    ensures |PodLists(objs)| == |objs|
    ensures forall i :: 0 <= i < |objs| ==> PodLists(objs)[i] == objs[i].pods
  {
  }

  lemma PodsAtDef(now: Objects, n: string)
    requires n in now
    ensures PodsAt(now)(n) == now[n].pods
  {
  }

  lemma LikePods(a: PolicyEndpoint, o: PolicyEndpoint)
    requires StoredLike(a, o)
    ensures multiset(a.pods) == multiset(o.pods)
  {
  }

  lemma SameListing<T>(a: seq<T>, b: seq<T>, s: set<T>)
    requires Lists(a, s) && Lists(b, s)
    ensures multiset(a) == multiset(b)
  {
  }

  lemma DesiredPods(r: Resolved)
    ensures DesiredBy(r).pods == set p | p in r.pods
  {
  }

  lemma StoredPodBag(s: Objects, r: Round, listing: seq<string>)
    requires ValidStore(s) && RoundValid(s, r) && Apart(r.resolved)
    requires ListsStore(StoreAfter(s, r), listing)
    ensures ColumnBag(Itself<PodEndpoint>(), PodLists(ObjectsListed(StoreAfter(s, r), listing))) == multiset(set p | p in r.resolved.pods)
  {
    hide *;
    var now, survivors, names := StoreAfter(s, r), Surviving(PlanOf(s, r)), PlanNamesOf(r);
    ListsStoreDef(now, listing);
    ListedMaps(now, listing, Ingress);
    PlanNamesList(s, r);
    PodListAt(survivors);
    PlanPlacement(s, r);
    DesiredPods(r.resolved);
    PlanSizes(s, r);
    SameListing(listing, names, now.Keys);
    ColumnBagPermute(Itself<PodEndpoint>(), PodsAt(now), listing, names);
    var cols := Map(PodsAt(now), names);
    forall i: nat | i < |names| ensures Bag(Itself<PodEndpoint>(), cols[i]) == Bag(Itself<PodEndpoint>(), PodLists(survivors)[i]) {
      StoredAtIndex(s, r, i);
      LikePods(now[names[i]], survivors[i]);
      PodsAtDef(now, names[i]);
      BagPermute(Itself<PodEndpoint>(), now[names[i]].pods, survivors[i].pods);
    }
    ColumnBagPointwise(Itself<PodEndpoint>(), cols, PodLists(survivors));
  }

  lemma SurvivorIsolation(s: Objects, r: Round, o: PolicyEndpoint)
    requires ValidStore(s) && RoundValid(s, r) && o in Surviving(PlanOf(s, r))
    ensures o.header.podIsolation == r.policy.policyTypes
  {
    var cfg, existing, d := ConfigOf(r.policy, r.chunk), ObjectsListed(s, r.listing), DesiredBy(r.resolved);
    hide PlanFor, ValidOrder, MergedPlan, Kept, Left;
    PlanShape(cfg, existing, d, r.order);
    if o in PlanOf(s, r).update {
      var i := UpdateOrigin(cfg, existing, d, r.order, o);
    }
  }

  /** After the first round every stored object lists the policy's types, in some order. */
  lemma StoredIsolation(s: Objects, r: Round, n: string)
    requires ValidStore(s) && RoundValid(s, r) && Apart(r.resolved) && n in StoreAfter(s, r)
    ensures multiset(StoreAfter(s, r)[n].header.podIsolation) == multiset(r.policy.policyTypes)
  {
    hide RoundValid, PlanOf, StoreAfter, Apart, ValidStore, PlanNamesOf;
    PlanNamesMember(s, r, n);
    var i: nat :| i < |PlanNamesOf(r)| && PlanNamesOf(r)[i] == n;
    StoredAtIndex(s, r, i);
    SurvivorIsolation(s, r, Surviving(PlanOf(s, r))[i]);
  }

  lemma SameSizes(a: PolicyEndpoint, o: PolicyEndpoint)
    requires StoredLike(a, o)
    ensures IsBare(a) <==> IsBare(o)
  {
    hide CanonOf, Bag;
    BagSize(CanonOf, a.ingress);
    BagSize(CanonOf, o.ingress);
    BagSize(CanonOf, a.egress);
    BagSize(CanonOf, o.egress);
    assert |multiset(a.pods)| == |a.pods| && |multiset(o.pods)| == |o.pods|;
  }

  lemma StoredLoaded(s: Objects, r: Round, n: string)
    requires ValidStore(s) && RoundValid(s, r) && Apart(r.resolved) && n in StoreAfter(s, r)
    ensures |Surviving(PlanOf(s, r))| > 1 ==> !IsBare(StoreAfter(s, r)[n])
  {
    hide RoundValid, PlanOf, StoreAfter, Apart, ValidStore, PlanNamesOf, IsBare, Surviving, StoredLike;
    PlanNamesMember(s, r, n);
    var i: nat :| i < |PlanNamesOf(r)| && PlanNamesOf(r)[i] == n;
    StoredAtIndex(s, r, i);
    SameSizes(StoreAfter(s, r)[n], Surviving(PlanOf(s, r))[i]);
    SurvivorShape(s, r);
    assert Surviving(PlanOf(s, r))[i] in Surviving(PlanOf(s, r));
  }

  lemma SurvivorShape(s: Objects, r: Round)
    requires RoundValid(s, r)
    ensures |Surviving(PlanOf(s, r))| >= 1
    ensures |Surviving(PlanOf(s, r))| > 1 ==> forall o | o in Surviving(PlanOf(s, r)) :: !IsBare(o)
  {
    hide PlanFor, ValidOrder, MergedPlan, IsBare;
    PlanShape(ConfigOf(r.policy, r.chunk), ObjectsListed(s, r.listing), DesiredBy(r.resolved), r.order);
  }

  lemma StoreAfterValid(s: Objects, r: Round)
    requires ValidStore(s) && RoundValid(s, r)
    ensures ValidStore(StoreAfter(s, r))
  {
    RoundSizes(s, r);
    PrefixKeepsStoreValid(s, r, |Writes(s, r)|);
    assert Writes(s, r)[..|Writes(s, r)|] == Writes(s, r);
  }

  // ---------------------------------------------------------------- what a round reaches

  /** Every desired rule is held once, up to order, every desired pod once, and nothing else. */
  ghost predicate AllHeld(now: Objects, resolved: Resolved, listing: seq<string>) {
    && ListsStore(now, listing)
    && var objs := ObjectsListed(now, listing);
       && (forall dir: Direction :: ColumnBag(CanonOf, RuleLists(objs, dir)) == multiset(Canons(RulesWanted(resolved, dir))))
       && ColumnBag(Itself<PodEndpoint>(), PodLists(objs)) == multiset(set p | p in resolved.pods)
  }

  /** No object is empty unless it is the only one, and all list the policy's types. */
  ghost predicate Tidy(now: Objects, policy: Policy) {
    && |now| > 0
    && (forall n | n in now :: multiset(now[n].header.podIsolation) == multiset(policy.policyTypes))
    && (|now| > 1 ==> forall n | n in now :: !IsBare(now[n]))
  }

  /** The store holds exactly the desired endpoints, rules up to the order of their ports and
      exceptions. */
  ghost predicate Reached(now: Objects, policy: Policy, resolved: Resolved) {
    && ValidStore(now) && ValidResolved(resolved) && Apart(resolved) && Tidy(now, policy)
    && forall listing | ListsStore(now, listing) :: AllHeld(now, resolved, listing)
  }

  lemma StoredTidy(s: Objects, r: Round)
    requires ValidStore(s) && RoundValid(s, r) && Apart(r.resolved)
    ensures Tidy(StoreAfter(s, r), r.policy)
  {
    var now := StoreAfter(s, r);
    hide *;
    PlanSizes(s, r);
    PlanNamesList(s, r);
    ListsMembers(PlanNamesOf(r), now.Keys);
    SurvivorShape(s, r);
    assert |now| == |now.Keys|;
    forall n | n in now
      ensures multiset(now[n].header.podIsolation) == multiset(r.policy.policyTypes)
      ensures |now| > 1 ==> !IsBare(now[n])
    {
      StoredIsolation(s, r, n);
      StoredLoaded(s, r, n);
    }
    TidyDef(now, r.policy);
  }

  lemma TidyDef(now: Objects, policy: Policy)
    requires |now| > 0
    requires forall n | n in now :: multiset(now[n].header.podIsolation) == multiset(policy.policyTypes)
    requires |now| > 1 ==> forall n | n in now :: !IsBare(now[n])
    ensures Tidy(now, policy)
  {
    hide IsBare;
  }

  /** Whatever the store was, a complete round reaches the desired endpoints, provided no two
      desired rules of a direction would be merged. */
  lemma RoundReaches(s: Objects, r: Round)
    requires ValidStore(s) && RoundValid(s, r) && Apart(r.resolved)
    ensures Reached(StoreAfter(s, r), r.policy, r.resolved)
  {
    hide *;
    var now := StoreAfter(s, r);
    StoreAfterValid(s, r);
    RoundParts(s, r);
    StoredTidy(s, r);
    forall listing | ListsStore(now, listing) ensures AllHeld(now, r.resolved, listing) {
      StoredHeld(s, r, listing);
    }
    ReachedDef(now, r.policy, r.resolved);
  }

  lemma StoredHeld(s: Objects, r: Round, listing: seq<string>)
    requires ValidStore(s) && RoundValid(s, r) && Apart(r.resolved) && ListsStore(StoreAfter(s, r), listing)
    ensures AllHeld(StoreAfter(s, r), r.resolved, listing)
  {
    hide RoundValid, StoreAfter, ValidStore, Apart, ColumnBag, Itself, RuleLists, RulesWanted, Canons, ObjectsListed, PodLists, CanonOf, PlanOf;
    forall dir: Direction
      ensures ColumnBag(CanonOf, RuleLists(ObjectsListed(StoreAfter(s, r), listing), dir)) == multiset(Canons(RulesWanted(r.resolved, dir)))
    {
      SurvivorCanons(s, r, dir);
      StoredRuleBag(s, r, listing, dir);
    }
    StoredPodBag(s, r, listing);
  }

  lemma ReachedDef(now: Objects, policy: Policy, resolved: Resolved)
    requires ValidStore(now) && ValidResolved(resolved) && Apart(resolved) && Tidy(now, policy)
    requires forall listing | ListsStore(now, listing) :: AllHeld(now, resolved, listing)
    ensures Reached(now, policy, resolved)
  {
    hide ValidStore, ValidResolved, Apart, Tidy, AllHeld, ListsStore;
  }
}
