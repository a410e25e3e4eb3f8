/** A further round on a store that already holds the desired endpoints up to order: the rules
    that it takes away are the reordered copies, and it is quiet exactly when every object gets
    back what it loses. */
module ReorderedCopies {
  import opened Basics
  import opened Permutations
  import opened PolicyInfo
  import opened Packing
  import opened Purge
  import opened RuleKeys
  import opened Reconciler
  import opened Placement
  import opened Equality
  import opened Store
  import opened WriteEffects
  import opened Convergence
  import opened RoundResult
  import opened Repacking
  import opened Refilling

  /** A desired rule with its ports or exceptions in another order. */
  ghost predicate ReorderedCopy(x: EndpointInfo, wanted: seq<EndpointInfo>) {
    exists e :: e in wanted && CanonOf(x) == CanonOf(e) && x != e
  }

  ghost predicate HasCopies(o: PolicyEndpoint, resolved: Resolved, dir: Direction) {
    exists x :: x in RulesOf(o, dir) && ReorderedCopy(x, RulesWanted(resolved, dir))
  }

  /** The object holds no pod and no desired rule as it stands. */
  ghost predicate LeftBare(o: PolicyEndpoint, resolved: Resolved) {
    o.pods == [] && forall dir: Direction, x | x in RulesOf(o, dir) :: x !in RulesWanted(resolved, dir)
  }

  // ---------------------------------------------------------------- what is taken away

  ghost function KeysWanted(resolved: Resolved, dir: Direction): set<string> { Wanted(DesiredBy(resolved), dir).Keys }

  /** The rules that the next round takes away from an object, before it packs. */
  ghost function Lost(o: PolicyEndpoint, resolved: Resolved, dir: Direction): seq<EndpointInfo> {
    Outdated(EndpointInfoKey, RulesOf(o, dir), KeysWanted(resolved, dir))
  }

  ghost function Stays(o: PolicyEndpoint, resolved: Resolved, dir: Direction): seq<EndpointInfo> {
    Current(EndpointInfoKey, RulesOf(o, dir), KeysWanted(resolved, dir))
  }

  lemma KeyWanted(resolved: Resolved, dir: Direction, x: EndpointInfo)
    requires ValidResolved(resolved) && ValidRule(x)
    ensures EndpointInfoKey(x) in KeysWanted(resolved, dir) <==> x in RulesWanted(resolved, dir)
  {
    var list := RulesWanted(resolved, dir);
    assert Wanted(DesiredBy(resolved), dir) == ByKey(EndpointInfoKey, list);
    hide EndpointInfoKey, ByKey, ValidRule;
    if EndpointInfoKey(x) in ByKey(EndpointInfoKey, list) {
      EndpointInfoKeyInjective(ByKey(EndpointInfoKey, list)[EndpointInfoKey(x)], x);
    }
  }

  lemma StoredRuleValid(now: Objects, n: string, dir: Direction)
    requires ValidStore(now) && n in now
    ensures forall x | x in RulesOf(now[n], dir) :: ValidRule(x)
  {
    hide ValidRule;
  }

  lemma WantedCanon(c: Canon, rules: seq<EndpointInfo>) returns (e: EndpointInfo)
    requires c in Canons(rules)
    ensures e in rules && CanonOf(e) == c
  {
    e :| e in rules && CanonOf(e) == c;
  }

  lemma HeldOn(now: Objects, resolved: Resolved, listing: seq<string>, dir: Direction)
    requires AllHeld(now, resolved, listing)
    ensures ListsStore(now, listing) && Lists(listing, now.Keys) && forall n | n in listing :: n in now
    ensures ColumnBag(CanonOf, RuleLists(ObjectsListed(now, listing), dir)) == multiset(Canons(RulesWanted(resolved, dir)))
    ensures ColumnBag(Itself<PodEndpoint>(), PodLists(ObjectsListed(now, listing))) == multiset(set p | p in resolved.pods)
  {
    hide ColumnBag, CanonOf, Canons, RuleLists, PodLists, ObjectsListed, Itself, RulesWanted, Lists;
  }

  /** Every stored rule is a desired one up to order. */
  lemma StoredRuleWanted(now: Objects, resolved: Resolved, listing: seq<string>, n: string, dir: Direction, x: EndpointInfo)
    requires AllHeld(now, resolved, listing) && n in now && x in RulesOf(now[n], dir)
    ensures CanonOf(x) in Canons(RulesWanted(resolved, dir))
  {
    hide *;
    HeldOn(now, resolved, listing, dir);
    ListsMembers(listing, now.Keys);
    var objs := ObjectsListed(now, listing);
    ListAt(objs, dir);
    var i :| 0 <= i < |listing| && listing[i] == n;
    assert objs[i] == now[n];
    ColumnBagMembers(CanonOf, RuleLists(objs, dir), CanonOf(x));
  }

  lemma LostMembers(now: Objects, resolved: Resolved, n: string, dir: Direction, x: EndpointInfo)
    requires ValidStore(now) && ValidResolved(resolved) && n in now
    ensures x in Lost(now[n], resolved, dir) <==> x in RulesOf(now[n], dir) && x !in RulesWanted(resolved, dir)
    ensures x in Stays(now[n], resolved, dir) <==> x in RulesOf(now[n], dir) && x in RulesWanted(resolved, dir)
  {
    hide RulesOf, RulesWanted, ValidStore, ValidResolved, KeysWanted, EndpointInfoKey, Outdated, Current, ValidRule;
    SplitMembers(EndpointInfoKey, RulesOf(now[n], dir), KeysWanted(resolved, dir), x);
    StoredRuleValid(now, n, dir);
    if x in RulesOf(now[n], dir) {
      KeyWanted(resolved, dir, x);
    }
  }

  /** A stored rule that is not desired as it stands is a reordered copy of a desired one. */
  lemma CopyExactly(now: Objects, resolved: Resolved, listing: seq<string>, n: string, dir: Direction, x: EndpointInfo)
    requires Apart(resolved) && AllHeld(now, resolved, listing) && n in now && x in RulesOf(now[n], dir)
    ensures ReorderedCopy(x, RulesWanted(resolved, dir)) <==> x !in RulesWanted(resolved, dir)
  {
    hide AllHeld, RulesWanted, RulesOf, CanonOf, Apart, NoSharedIdentity, Canons;
    var wanted := RulesWanted(resolved, dir);
    ApartOn(resolved, dir);
    StoredRuleWanted(now, resolved, listing, n, dir, x);
    var e := WantedCanon(CanonOf(x), wanted);
    if x in wanted {
      forall y | y in wanted && CanonOf(x) == CanonOf(y) ensures x == y {
        SameCanonSameRule(x, y, wanted);
      }
    }
  }

  lemma CopiesAreLost(now: Objects, resolved: Resolved, listing: seq<string>, n: string, dir: Direction)
    requires ValidStore(now) && ValidResolved(resolved) && Apart(resolved) && AllHeld(now, resolved, listing) && n in now
    ensures HasCopies(now[n], resolved, dir) <==> Lost(now[n], resolved, dir) != []
  {
    hide ValidStore, ValidResolved, Apart, AllHeld, Lost, RulesOf, RulesWanted, ReorderedCopy;
    var lost := Lost(now[n], resolved, dir);
    if lost != [] {
      var x := lost[0];
      LostMembers(now, resolved, n, dir, x);
      CopyExactly(now, resolved, listing, n, dir, x);
    }
    if HasCopies(now[n], resolved, dir) {
      var x :| x in RulesOf(now[n], dir) && ReorderedCopy(x, RulesWanted(resolved, dir));
      LostMembers(now, resolved, n, dir, x);
      CopyExactly(now, resolved, listing, n, dir, x);
    }
  }

  // ---------------------------------------------------------------- the purge is a filter

  lemma StoredKeysFiner(now: Objects, resolved: Resolved, listing: seq<string>, dir: Direction, e: EndpointInfo)
    requires ValidStore(now) && ValidRule(e) && (forall n | n in listing :: n in now)
    ensures var cols := RuleLists(ObjectsListed(now, listing), dir);
            forall i, y | 0 <= i < |cols| && y in cols[i] ::
              EndpointInfoKey(e) == EndpointInfoKey(y) ==> CanonOf(e) == CanonOf(y)
  {
    hide *;
    var objs := ObjectsListed(now, listing);
    var cols := RuleLists(objs, dir);
    ListAt(objs, dir);
    forall i, y | 0 <= i < |cols| && y in cols[i] && EndpointInfoKey(e) == EndpointInfoKey(y)
      ensures CanonOf(e) == CanonOf(y)
    {
      StoredRuleValid(now, listing[i], dir);
      EndpointInfoKeyInjective(e, y);
    }
  }

  lemma KeyOrigin(resolved: Resolved, dir: Direction, k: string) returns (e: EndpointInfo)
    requires k in KeysWanted(resolved, dir)
    ensures e in RulesWanted(resolved, dir) && EndpointInfoKey(e) == k
  {
    hide EndpointInfoKey;
    e := Wanted(DesiredBy(resolved), dir)[k];
  }

  lemma HeldCount(c: Canon, rules: seq<EndpointInfo>)
    ensures multiset(Canons(rules))[c] <= 1
  {
  }

  lemma RulesNotTwice(now: Objects, resolved: Resolved, listing: seq<string>, dir: Direction)
    requires ValidStore(now) && ValidResolved(resolved) && AllHeld(now, resolved, listing)
    ensures forall n | n in listing :: n in now
    ensures HeldAtMostOnce(EndpointInfoKey, RuleLists(ObjectsListed(now, listing), dir), KeysWanted(resolved, dir))
  {
    HeldOn(now, resolved, listing, dir);
    WantedValid(resolved, dir);
    hide AllHeld, RuleLists, KeysWanted, EndpointInfoKey, ColumnBag, ValidRule, CanonOf, RulesWanted, ValidStore, ValidResolved, Canons, ObjectsListed;
    var cols := RuleLists(ObjectsListed(now, listing), dir);
    forall k | k in KeysWanted(resolved, dir) ensures ColumnBag(EndpointInfoKey, cols)[k] <= 1 {
      var e := KeyOrigin(resolved, dir, k);
      StoredKeysFiner(now, resolved, listing, dir, e);
      FinerCountAll(EndpointInfoKey, CanonOf, cols, e);
      HeldCount(CanonOf(e), RulesWanted(resolved, dir));
    }
  }

  lemma ExistingNotTwice(now: Objects, policy: Policy, resolved: Resolved, chunk: nat, listing: seq<string>)
    requires ValidStore(now) && ValidResolved(resolved) && AllHeld(now, resolved, listing)
    ensures forall n | n in listing :: n in now
    ensures NoneTwice(ConfigOf(policy, chunk), ObjectsListed(now, listing), DesiredBy(resolved))
  {
    hide AllHeld, EndpointInfoKey, ColumnBag, ValidStore, ValidResolved, ObjectsListed, ByKey, Ingresses, Egresses, PodLists, Itself;
    RulesNotTwice(now, resolved, listing, Ingress);
    RulesNotTwice(now, resolved, listing, Egress);
    HeldOn(now, resolved, listing, Ingress);
  }

  // ---------------------------------------------------------------- the slots of a round

  ghost function SlotsOf(now: Objects, again: Round): seq<PolicyEndpoint>
    requires RoundValid(now, again)
  {
    Slots(ConfigOf(again.policy, again.chunk), ObjectsListed(now, again.listing), DesiredBy(again.resolved))
  }

  /** The names of the stored objects in the order in which they are packed. */
  ghost function SlotOrder(now: Objects, again: Round): (r: seq<string>)
    requires RoundValid(now, again)
    ensures |r| == |SlotsOf(now, again)|
  {
    Map(NameColumn(), SlotsOf(now, again))
  }

  lemma SlotOrderListing(now: Objects, again: Round)
    requires ValidStore(now) && RoundValid(now, again)
    ensures ListsStore(now, SlotOrder(now, again))
  {
    hide Slots, PlanFor, ValidOrder, MergedPlan, DesiredBy;
    ListedNames(now, again.listing);
    SlotNames(ConfigOf(again.policy, again.chunk), ObjectsListed(now, again.listing), DesiredBy(again.resolved));
    ListsMembers(SlotOrder(now, again), now.Keys);
  }

  lemma RoundListing(now: Objects, again: Round)
    requires RoundValid(now, again)
    ensures ListsStore(now, again.listing) && again.chunk > 0 && ValidResolved(again.resolved)
    ensures ConfigOf(again.policy, again.chunk).key == EndpointInfoKey && ConfigOf(again.policy, again.chunk).chunk == again.chunk
  {
    hide ValidOrder, MergedPlan, PlanFor, ValidResolved;
  }

  ghost function TrimmedStored(policy: Policy, resolved: Resolved, o: PolicyEndpoint): PolicyEndpoint {
    PolicyObject(o.name, o.header.(podIsolation := policy.policyTypes),
      Stays(o, resolved, Ingress), Stays(o, resolved, Egress), o.pods)
  }

  lemma StoredPodsCurrent(now: Objects, resolved: Resolved, listing: seq<string>, n: string)
    requires AllHeld(now, resolved, listing) && n in now
    ensures Current(Itself<PodEndpoint>(), now[n].pods, DesiredBy(resolved).pods) == now[n].pods
  {
    hide *;
    HeldOn(now, resolved, listing, Ingress);
    DesiredPods(resolved);
    ListsMembers(listing, now.Keys);
    var objs := ObjectsListed(now, listing);
    PodListAt(objs);
    var i :| 0 <= i < |listing| && listing[i] == n;
    assert objs[i] == now[n];
    forall p | p in now[n].pods ensures Itself<PodEndpoint>()(p) in DesiredBy(resolved).pods {
      ColumnBagMembers(Itself<PodEndpoint>(), PodLists(objs), Itself<PodEndpoint>()(p));
    }
    AllCurrent(Itself<PodEndpoint>(), now[n].pods, DesiredBy(resolved).pods);
  }

  lemma TrimmedIsStored(now: Objects, policy: Policy, resolved: Resolved, chunk: nat, listing: seq<string>, n: string)
    requires AllHeld(now, resolved, listing) && n in now
    ensures Trimmed(ConfigOf(policy, chunk), DesiredBy(resolved), now[n]) == TrimmedStored(policy, resolved, now[n])
  {
    StoredPodsCurrent(now, resolved, listing, n);
    hide AllHeld, Current, Itself, EndpointInfoKey, ByKey;
  }

  /** A slot is a stored object without its reordered copies. */
  lemma SlotAt(now: Objects, again: Round, j: nat)
    requires RoundValid(now, again) && ValidStore(now) && AllHeld(now, again.resolved, again.listing)
    requires j < |SlotsOf(now, again)|
    ensures SlotOrder(now, again)[j] in now
    ensures SlotsOf(now, again)[j] == TrimmedStored(again.policy, again.resolved, now[SlotOrder(now, again)[j]])
  {
    RoundListing(now, again);
    var cfg, d := ConfigOf(again.policy, again.chunk), DesiredBy(again.resolved);
    ExistingNotTwice(now, again.policy, again.resolved, again.chunk, again.listing);
    hide Slots, AllHeld, RoundValid, Trimmed, NoneTwice, DesiredBy, ConfigOf, TrimmedStored, ValidSpec;
    var i := SlotTrimmed(cfg, ObjectsListed(now, again.listing), d, j);
    var n := again.listing[i];
    TrimmedIsStored(now, again.policy, again.resolved, again.chunk, again.listing, n);
    TrimmedName(again.policy, again.resolved, now[n]);
  }

  lemma TrimmedName(policy: Policy, resolved: Resolved, o: PolicyEndpoint)
    ensures TrimmedStored(policy, resolved, o).name == o.name
  {
  }

  lemma TrimmedBare(now: Objects, policy: Policy, resolved: Resolved, n: string)
    requires ValidStore(now) && ValidResolved(resolved) && n in now
    ensures IsBare(TrimmedStored(policy, resolved, now[n])) <==> LeftBare(now[n], resolved)
  {
    var o := now[n];
    hide ValidStore, ValidResolved, Stays, RulesOf, RulesWanted;
    if LeftBare(o, resolved) {
      forall dir: Direction ensures Stays(o, resolved, dir) == [] {
        if Stays(o, resolved, dir) != [] {
          LostMembers(now, resolved, n, dir, Stays(o, resolved, dir)[0]);
        }
      }
    }
    if Stays(o, resolved, Ingress) == [] && Stays(o, resolved, Egress) == [] && o.pods == [] {
      forall dir: Direction, x | x in RulesOf(o, dir) ensures x !in RulesWanted(resolved, dir) {
        LostMembers(now, resolved, n, dir, x);
        assert dir == Ingress || dir == Egress;
      }
    }
  }
}
