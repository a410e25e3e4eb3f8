/** End-to-end meaning of reconciliation: what a complete round publishes, what holds after
    every prefix of its writes, and what holds over runs of interrupted rounds. */
module Convergence {
  import opened Basics
  import opened PolicyInfo
  import opened Purge
  import opened RuleKeys
  import opened Combine
  import opened Reconciler
  import opened Placement
  import opened Equality
  import opened Store
  import opened WriteEffects

  function RulesOf(o: PolicyEndpoint, dir: Direction): seq<EndpointInfo> {
    if dir.Ingress? then o.ingress else o.egress
  }

  function RulesWanted(r: Resolved, dir: Direction): seq<EndpointInfo> {
    if dir.Ingress? then r.ingress else r.egress
  }

  /** The traffic that the published objects admit together. */
  ghost predicate Published(net: Network, s: Objects, dir: Direction, f: Flow) {
    exists n | n in s :: AdmittedBy(net, RulesOf(s[n], dir), f)
  }

  ghost predicate PublishedPod(s: Objects, p: PodEndpoint) {
    exists n | n in s :: p in s[n].pods
  }

  // ---------------------------------------------------------------- the plan before merging

  ghost function PlanOf(s: Objects, r: Round): Plan<PolicyHeader, EndpointInfo>
    requires RoundValid(s, r)
  {
    PlanFor(ConfigOf(r.policy, r.chunk), ObjectsListed(s, r.listing), DesiredBy(r.resolved), r.order)
  }

  function RuleTest(): EndpointInfo -> bool { (e: EndpointInfo) => ValidRule(e) }

  function PodTest(): PodEndpoint -> bool { (p: PodEndpoint) => ValidPod(p) }

  lemma StoreEntries(s: Objects, listing: seq<string>)
    requires ValidStore(s) && (forall n | n in listing :: n in s)
    ensures AllEntries(RuleTest(), PodTest(), ObjectsListed(s, listing))
  {
    hide ValidRule, ValidPod;
    forall o | o in ObjectsListed(s, listing) ensures GoodObject(RuleTest(), PodTest(), o) {
      var i :| 0 <= i < |listing| && ObjectsListed(s, listing)[i] == o;
      assert listing[i] in s;
    }
  }

  lemma DesiredEntries(r: Resolved)
    requires ValidResolved(r)
    ensures GoodDesired(RuleTest(), PodTest(), DesiredBy(r))
    ensures WellKeyed(EndpointInfoKey, DesiredBy(r).ingress) && WellKeyed(EndpointInfoKey, DesiredBy(r).egress)
  {
    hide ValidRule, ValidPod, EndpointInfoKey;
  }

  /** All survivors of the plan hold well-formed entries. */
  lemma SurvivorsValid(s: Objects, r: Round, o: PolicyEndpoint)
    requires ValidStore(s) && RoundValid(s, r)
    requires o in Surviving(PlanOf(s, r)) || o in PlanOf(s, r).delete
    ensures ValidSpec(o)
  {
    hide *;
    RoundParts(s, r);
    var cfg, existing, d := ConfigOf(r.policy, r.chunk), ObjectsListed(s, r.listing), DesiredBy(r.resolved);
    StoreEntries(s, r.listing);
    DesiredEntries(r.resolved);
    PlanEntriesGood(RuleTest(), PodTest(), cfg, existing, d, r.order);
    EntryGood(RuleTest(), PodTest(), Surviving(PlanOf(s, r)), o);
    EntryGood(RuleTest(), PodTest(), PlanOf(s, r).delete, o);
    GoodIsValid(o);
  }

  /** What a valid round says about its plan. */
  lemma RoundParts(s: Objects, r: Round)
    requires RoundValid(s, r)
    ensures ConfigOf(r.policy, r.chunk).chunk > 0 && ValidResolved(r.resolved) && (forall n | n in r.listing :: n in s)
    ensures ValidOrder(ConfigOf(r.policy, r.chunk), ObjectsListed(s, r.listing), DesiredBy(r.resolved), r.order)
    ensures PlanOf(s, r) == PlanFor(ConfigOf(r.policy, r.chunk), ObjectsListed(s, r.listing), DesiredBy(r.resolved), r.order)
  {
    hide PlanFor, ValidOrder, MergedPlan, ValidResolved, ObjectsListed, DesiredBy;
  }

  lemma EntryGood(
    rule: EndpointInfo -> bool, pod: PodEndpoint -> bool, objs: seq<PolicyEndpoint>, o: PolicyEndpoint)
    requires AllEntries(rule, pod, objs)
    ensures o in objs ==> GoodObject(rule, pod, o)
  {
    hide GoodObject;
  }

  lemma GoodIsValid(o: PolicyEndpoint)
    requires GoodObject(RuleTest(), PodTest(), o)
    ensures ValidSpec(o)
  {
    hide ValidRule, ValidPod;
  }

  lemma PlanPlacement(s: Objects, r: Round)
    requires ValidStore(s) && RoundValid(s, r)
    ensures var survivors, d := Surviving(PlanOf(s, r)), DesiredBy(r.resolved);
            && ColumnBag(EndpointInfoKey, Ingresses(survivors)) == multiset(d.ingress.Keys)
            && ColumnBag(EndpointInfoKey, Egresses(survivors)) == multiset(d.egress.Keys)
            && ColumnBag(Itself<PodEndpoint>(), PodLists(survivors)) == multiset(d.pods)
  {
    hide PlanFor, ValidOrder, MergedPlan, EndpointInfoKey, Itself;
    DesiredEntries(r.resolved);
    ExactlyOnce(ConfigOf(r.policy, r.chunk), ObjectsListed(s, r.listing), DesiredBy(r.resolved), r.order);
  }

  lemma {:induction false} ByKeyMembers(list: seq<EndpointInfo>, e: EndpointInfo)
    requires ValidRules(list) && e in list
    ensures EndpointInfoKey(e) in ByKey(EndpointInfoKey, list) && ByKey(EndpointInfoKey, list)[EndpointInfoKey(e)] == e
  {
    var m := ByKey(EndpointInfoKey, list);
    hide EndpointInfoKey, ByKey, ValidRule;
    EndpointInfoKeyInjective(m[EndpointInfoKey(e)], e);
  }

  function Wanted(d: Desired<EndpointInfo>, dir: Direction): map<string, EndpointInfo> {
    if dir.Ingress? then d.ingress else d.egress
  }

  ghost function RuleLists(objs: seq<PolicyEndpoint>, dir: Direction): seq<seq<EndpointInfo>> {
    if dir.Ingress? then Ingresses(objs) else Egresses(objs)
  }

  lemma PlacementOn(s: Objects, r: Round, dir: Direction)
    requires ValidStore(s) && RoundValid(s, r)
    ensures ColumnBag(EndpointInfoKey, RuleLists(Surviving(PlanOf(s, r)), dir)) == multiset(Wanted(DesiredBy(r.resolved), dir).Keys)
  {
    PlanPlacement(s, r);
    hide RoundValid, PlanOf, ValidStore, ColumnBag, EndpointInfoKey, Ingresses, Egresses, DesiredBy, PodLists, Itself;
  }

  lemma ListAt(objs: seq<PolicyEndpoint>, dir: Direction)
    ensures |RuleLists(objs, dir)| == |objs|
    ensures forall i :: 0 <= i < |objs| ==> RuleLists(objs, dir)[i] == RulesOf(objs[i], dir)
  {
  }

  /** Every rule of a survivor is a desired rule. */
  lemma SurvivorRule(s: Objects, r: Round, o: PolicyEndpoint, dir: Direction, x: EndpointInfo)
    requires ValidStore(s) && RoundValid(s, r)
    requires o in Surviving(PlanOf(s, r)) && x in RulesOf(o, dir)
    ensures x in RulesWanted(r.resolved, dir)
  {
    var survivors := Surviving(PlanOf(s, r));
    SurvivorsValid(s, r, o);
    PlanPlacement(s, r);
    assert ValidRules(RulesWanted(r.resolved, dir));
    hide PlanOf, RoundValid, EndpointInfoKey, ByKey, ValidRule, ColumnBag, Itself;
    var i :| 0 <= i < |survivors| && survivors[i] == o;
    ListAt(survivors, dir);
    ColumnBagMembers(EndpointInfoKey, RuleLists(survivors, dir), EndpointInfoKey(x));
    var m := ByKey(EndpointInfoKey, RulesWanted(r.resolved, dir));
    assert EndpointInfoKey(x) in m;
    EndpointInfoKeyInjective(m[EndpointInfoKey(x)], x);
  }

  /** Every desired rule is held by some survivor. */
  lemma RulePlaced(s: Objects, r: Round, dir: Direction, e: EndpointInfo) returns (o: PolicyEndpoint)
    requires ValidStore(s) && RoundValid(s, r)
    requires e in RulesWanted(r.resolved, dir)
    ensures o in Surviving(PlanOf(s, r)) && e in RulesOf(o, dir)
  {
    var survivors := Surviving(PlanOf(s, r));
    PlanPlacement(s, r);
    assert ValidRules(RulesWanted(r.resolved, dir));
    ListAt(survivors, dir);
    ByKeyMembers(RulesWanted(r.resolved, dir), e);
    ColumnBagMembers(EndpointInfoKey, RuleLists(survivors, dir), EndpointInfoKey(e));
    hide PlanOf, RoundValid, EndpointInfoKey, ByKey, ValidRule, ColumnBag, Itself;
    var i, x :| 0 <= i < |survivors| && x in RulesOf(survivors[i], dir) && EndpointInfoKey(x) == EndpointInfoKey(e);
    o := survivors[i];
    SurvivorRule(s, r, o, dir, x);
    EndpointInfoKeyInjective(x, e);
  }

  lemma PodListMembers(objs: seq<PolicyEndpoint>, p: PodEndpoint)
    ensures p in ColumnBag(Itself<PodEndpoint>(), PodLists(objs)) <==> exists o :: o in objs && p in o.pods
  {
    hide ColumnBag;
    ColumnBagMembers(Itself<PodEndpoint>(), PodLists(objs), p);
    if o :| o in objs && p in o.pods {
      var i :| 0 <= i < |objs| && objs[i] == o;
      assert p in PodLists(objs)[i] && Itself<PodEndpoint>()(p) == p;
    }
    if p in ColumnBag(Itself<PodEndpoint>(), PodLists(objs)) {
      var i, x :| 0 <= i < |objs| && x in PodLists(objs)[i] && Itself<PodEndpoint>()(x) == p;
      assert objs[i] in objs;
    }
  }

  lemma PodsPlaced(s: Objects, r: Round, p: PodEndpoint)
    requires ValidStore(s) && RoundValid(s, r)
    ensures p in r.resolved.pods <==> exists o :: o in Surviving(PlanOf(s, r)) && p in o.pods
  {
    hide PlanOf, RoundValid, ColumnBag, Itself, PodLists, Ingresses, Egresses, EndpointInfoKey, ByKey;
    PlanPlacement(s, r);
    PodListMembers(Surviving(PlanOf(s, r)), p);
    assert p in multiset(DesiredBy(r.resolved).pods) <==> p in r.resolved.pods;
  }

  // ---------------------------------------------------------------- after merging

  lemma MergedMeaning(o: PolicyEndpoint, m: PolicyEndpoint, net: Network, dir: Direction, f: Flow)
    requires ValidSpec(o) && MergedObject(o, m)
    ensures AdmittedBy(net, RulesOf(m, dir), f) <==> AdmittedBy(net, RulesOf(o, dir), f)
    ensures ValidSpec(m)
  {
    hide CombinedFrom, ValidRule, Admits;
    CombinePreservesMeaning(o.ingress, m.ingress, net, f);
    CombinePreservesMeaning(o.egress, m.egress, net, f);
    CombineShape(o.ingress, m.ingress);
    CombineShape(o.egress, m.egress);
  }

  /** The survivor that a merged object of the plan stands for. */
  lemma MergedOrigin(s: Objects, r: Round, m: PolicyEndpoint) returns (o: PolicyEndpoint)
    requires RoundValid(s, r) && m in r.plan.create + r.plan.update
    ensures o in Surviving(PlanOf(s, r)) && MergedObject(o, m)
  {
    hide PlanFor, ValidOrder, MergedObject;
    var p := PlanOf(s, r);
    if m in r.plan.create {
      var i :| 0 <= i < |r.plan.create| && r.plan.create[i] == m;
      o := p.create[i];
    } else {
      var i :| 0 <= i < |r.plan.update| && r.plan.update[i] == m;
      o := p.update[i];
    }
  }

  lemma MergedImage(s: Objects, r: Round, o: PolicyEndpoint) returns (m: PolicyEndpoint)
    requires RoundValid(s, r) && o in Surviving(PlanOf(s, r))
    ensures m in r.plan.create + r.plan.update && MergedObject(o, m)
    ensures o in PlanOf(s, r).update ==> m in r.plan.update
  {
    hide PlanFor, ValidOrder, MergedObject;
    var p := PlanOf(s, r);
    if o in p.update {
      var i :| 0 <= i < |p.update| && p.update[i] == o;
      m := r.plan.update[i];
    } else {
      var i :| 0 <= i < |p.create| && p.create[i] == o;
      m := r.plan.create[i];
    }
  }

  /** Objects written by a round are well-formed and admit only desired traffic and pods. */
  lemma WrittenObject(s: Objects, r: Round, m: PolicyEndpoint, net: Network, dir: Direction, f: Flow)
    requires ValidStore(s) && RoundValid(s, r) && m in r.plan.create + r.plan.update
    ensures ValidSpec(m)
    ensures AdmittedBy(net, RulesOf(m, dir), f) ==> AdmittedBy(net, RulesWanted(r.resolved, dir), f)
    ensures forall p | p in m.pods :: p in r.resolved.pods
  {
    hide RoundValid, Admits, ValidSpec, PlanOf, MergedObject;
    var o := MergedOrigin(s, r, m);
    SurvivorsValid(s, r, o);
    MergedMeaning(o, m, net, dir, f);
    if AdmittedBy(net, RulesOf(o, dir), f) {
      var x :| x in RulesOf(o, dir) && Admits(net, x, f);
      SurvivorRule(s, r, o, dir, x);
    }
    forall p | p in m.pods ensures p in r.resolved.pods {
      PodsPlaced(s, r, p);
      MergedPods(o, m);
    }
  }

  lemma MergedPods(o: PolicyEndpoint, m: PolicyEndpoint)
    requires MergedObject(o, m)
    ensures m.pods == o.pods && m.name == o.name && m.header == o.header
  {
  }

  // ---------------------------------------------------------------- the complete round

  /** Two objects admit this traffic alike and hold the same pods. */
  ghost predicate SameMeaning(a: PolicyEndpoint, b: PolicyEndpoint, net: Network, dir: Direction, f: Flow) {
    && (AdmittedBy(net, RulesOf(a, dir), f) <==> AdmittedBy(net, RulesOf(b, dir), f))
    && (forall p :: p in a.pods <==> p in b.pods)
  }

  lemma EqualSpecSame(a: PolicyEndpoint, b: PolicyEndpoint, net: Network, dir: Direction, f: Flow)
    requires ValidSpec(a) && ValidSpec(b) && SpecEqual(a, b)
    ensures SameMeaning(a, b, net, dir, f)
  {
    hide EndpointText, PodText, Admits, ValidRule;
    if AdmittedBy(net, RulesOf(a, dir), f) {
      EqualRulesAdmitSame(RulesOf(a, dir), RulesOf(b, dir), net, f);
    }
    if AdmittedBy(net, RulesOf(b, dir), f) {
      EqualRulesAdmitSame(RulesOf(b, dir), RulesOf(a, dir), net, f);
    }
    PodsEqualExact(a.pods, b.pods);
    forall p ensures p in a.pods <==> p in b.pods {
      assert p in multiset(a.pods) <==> p in multiset(b.pods);
    }
  }

  lemma UpdatedMeaning(s: Objects, now: Objects, m: PolicyEndpoint, net: Network, dir: Direction, f: Flow)
    requires ValidStore(s) && ValidSpec(m) && UpdatedIn(s, now, m)
    ensures m.name in now && SameMeaning(now[m.name], m, net, dir, f)
  {
    hide SpecEqual, ValidSpec, SameMeaning;
    if now[m.name] == m {
      SameMeaningReflexive(m, net, dir, f);
    } else {
      EqualSpecSame(s[m.name], m, net, dir, f);
    }
  }

  lemma SameMeaningReflexive(m: PolicyEndpoint, net: Network, dir: Direction, f: Flow)
    ensures SameMeaning(m, m, net, dir, f)
  {
  }

  lemma UpdateValid(s: Objects, r: Round, i: nat)
    requires ValidStore(s) && RoundValid(s, r) && i < |r.plan.update|
    ensures ValidSpec(r.plan.update[i])
  {
    var m := r.plan.update[i];
    assert m in r.plan.create + r.plan.update;
    hide RoundValid, ValidSpec;
    WrittenObject(s, r, m, Network((a, b) => false, (a, b) => false), Ingress, Flow(Address(""), "", 0));
  }

  lemma RenamedSame(m: PolicyEndpoint, n: string, net: Network, dir: Direction, f: Flow)
    ensures SameMeaning(m.(name := n), m, net, dir, f)
  {
    hide AdmittedBy;
  }

  lemma CreatedAsStored(s: Objects, r: Round, i: nat, net: Network, dir: Direction, f: Flow)
    requires ValidStore(s) && RoundValid(s, r) && i < |r.names|
    ensures |r.names| == |r.plan.create| && r.names[i] in ApplyAll(s, Writes(s, r))
    ensures SameMeaning(ApplyAll(s, Writes(s, r))[r.names[i]], r.plan.create[i], net, dir, f)
  {
    hide *;
    RoundSizes(s, r);
    RoundNames(s, r);
    CreatedInStore(s, r, i);
    RenamedSame(r.plan.create[i], r.names[i], net, dir, f);
  }

  lemma UpdatedAsStored(s: Objects, r: Round, i: nat, net: Network, dir: Direction, f: Flow)
    requires ValidStore(s) && RoundValid(s, r) && i < |r.plan.update|
    ensures r.plan.update[i].name in ApplyAll(s, Writes(s, r))
    ensures SameMeaning(ApplyAll(s, Writes(s, r))[r.plan.update[i].name], r.plan.update[i], net, dir, f)
  {
    hide *;
    RoundSizes(s, r);
    RoundNames(s, r);
    UpdatedInStore(s, r, i);
    UpdateValid(s, r, i);
    UpdatedMeaning(s, ApplyAll(s, Writes(s, r)), r.plan.update[i], net, dir, f);
  }

  /** After a complete round every stored object means what an object of the plan means. */
  lemma StoredAsPlanned(s: Objects, r: Round, n: string, net: Network, dir: Direction, f: Flow)
    returns (m: PolicyEndpoint)
    requires ValidStore(s) && RoundValid(s, r) && n in ApplyAll(s, Writes(s, r))
    ensures m in r.plan.create + r.plan.update
    ensures SameMeaning(ApplyAll(s, Writes(s, r))[n], m, net, dir, f)
  {
    RoundSizes(s, r);
    hide RoundValid, Writes, ApplyAll, SameMeaning, NamesApart, FreshNames;
    RoundNames(s, r);
    OnlySurvivors(s, r, n);
    if n in r.names {
      var i: nat :| i < |r.names| && r.names[i] == n;
      m := r.plan.create[i];
      CreatedAsStored(s, r, i, net, dir, f);
    } else {
      var i: nat :| i < |r.plan.update| && r.plan.update[i].name == n;
      m := r.plan.update[i];
      UpdatedAsStored(s, r, i, net, dir, f);
    }
  }

  lemma PlannedIsStored(s: Objects, r: Round, m: PolicyEndpoint, net: Network, dir: Direction, f: Flow)
    returns (n: string)
    requires ValidStore(s) && RoundValid(s, r) && m in r.plan.create + r.plan.update
    ensures n in ApplyAll(s, Writes(s, r))
    ensures SameMeaning(ApplyAll(s, Writes(s, r))[n], m, net, dir, f)
  {
    RoundSizes(s, r);
    hide RoundValid, Writes, ApplyAll, SameMeaning, FreshNames;
    if m in r.plan.create {
      var i: nat :| i < |r.plan.create| && r.plan.create[i] == m;
      n := r.names[i];
      CreatedAsStored(s, r, i, net, dir, f);
    } else {
      var i: nat :| i < |r.plan.update| && r.plan.update[i] == m;
      n := m.name;
      UpdatedAsStored(s, r, i, net, dir, f);
    }
  }

  /** What is desired is admitted by some object of the plan. */
  lemma DesiredPlanned(s: Objects, r: Round, net: Network, dir: Direction, f: Flow) returns (m: PolicyEndpoint)
    requires ValidStore(s) && RoundValid(s, r) && AdmittedBy(net, RulesWanted(r.resolved, dir), f)
    ensures m in r.plan.create + r.plan.update && AdmittedBy(net, RulesOf(m, dir), f)
  {
    hide RoundValid, Admits, ValidStore, PlanOf, MergedObject;
    var e :| e in RulesWanted(r.resolved, dir) && Admits(net, e, f);
    var o := RulePlaced(s, r, dir, e);
    m := MergedImage(s, r, o);
    SurvivorsValid(s, r, o);
    MergedMeaning(o, m, net, dir, f);
  }

  /** A complete round publishes exactly the desired traffic, in each direction, whatever the
      store held before and however the maps were visited. */
  lemma CompleteRoundMeaning(s: Objects, r: Round, net: Network, dir: Direction, f: Flow)
    requires ValidStore(s) && RoundValid(s, r)
    ensures Published(net, ApplyAll(s, Writes(s, r)), dir, f) <==> AdmittedBy(net, RulesWanted(r.resolved, dir), f)
  {
    var now := ApplyAll(s, Writes(s, r));
    hide RoundValid, Admits, Writes, ApplyAll, ValidStore, PlanOf, MergedObject;
    if Published(net, now, dir, f) {
      var n :| n in now && AdmittedBy(net, RulesOf(now[n], dir), f);
      var m := StoredAsPlanned(s, r, n, net, dir, f);
      WrittenObject(s, r, m, net, dir, f);
    }
    if AdmittedBy(net, RulesWanted(r.resolved, dir), f) {
      var m := DesiredPlanned(s, r, net, dir, f);
      var n := PlannedIsStored(s, r, m, net, dir, f);
    }
  }

  /** A complete round publishes exactly the desired pods. */
  lemma CompleteRoundPods(s: Objects, r: Round, p: PodEndpoint)
    requires ValidStore(s) && RoundValid(s, r)
    ensures PublishedPod(ApplyAll(s, Writes(s, r)), p) <==> p in r.resolved.pods
  {
    var now := ApplyAll(s, Writes(s, r));
    var net, f := Network((a, b) => false, (a, b) => false), Flow(Address(""), "", 0);
    hide RoundValid, Admits, Writes, ApplyAll, ValidStore, PlanOf, MergedObject;
    if PublishedPod(now, p) {
      var n :| n in now && p in now[n].pods;
      var m := StoredAsPlanned(s, r, n, net, Ingress, f);
      WrittenObject(s, r, m, net, Ingress, f);
    }
    if p in r.resolved.pods {
      PodsPlaced(s, r, p);
      var o :| o in Surviving(PlanOf(s, r)) && p in o.pods;
      var m := MergedImage(s, r, o);
      MergedPods(o, m);
      var n := PlannedIsStored(s, r, m, net, Ingress, f);
    }
  }

  // ---------------------------------------------------------------- every prefix of a round

  lemma CreatedIsPlanned(r: Round, n: string, o: PolicyEndpoint) returns (m: PolicyEndpoint)
    requires |r.names| == |r.plan.create| && IsCreated(r, n, o)
    ensures m in r.plan.create && o == m.(name := n)
  {
    var i :| 0 <= i < |r.names| && r.names[i] == n && o == r.plan.create[i].(name := n);
    m := r.plan.create[i];
  }

  /** The store stays well-formed at every prefix. */
  lemma PrefixKeepsStoreValid(s: Objects, r: Round, k: nat)
    requires ValidStore(s) && RoundValid(s, r) && k <= |Writes(s, r)|
    ensures ValidStore(ApplyAll(s, Writes(s, r)[..k]))
  {
    var now := ApplyAll(s, Writes(s, r)[..k]);
    var net, f := Network((a, b) => false, (a, b) => false), Flow(Address(""), "", 0);
    RoundSizes(s, r);
    hide RoundValid, Writes, ApplyAll;
    forall n | n in now ensures n != "" && now[n].name == n && ValidSpec(now[n]) {
      AtPrefix(s, r, k, n);
      if IsCreated(r, n, now[n]) {
        var m := CreatedIsPlanned(r, n, now[n]);
        WrittenObject(s, r, m, net, Ingress, f);
      } else if now[n] in r.plan.update && now[n].name == n {
        WrittenObject(s, r, now[n], net, Ingress, f);
        RoundNames(s, r);
        UpdateStored(s, r, now[n]);
      }
    }
  }

  /** At every prefix only old or desired traffic is admitted. */
  lemma PrefixAdmitsOnlyOldOrDesired(s: Objects, r: Round, k: nat, net: Network, dir: Direction, f: Flow)
    requires ValidStore(s) && RoundValid(s, r) && k <= |Writes(s, r)|
    requires Published(net, ApplyAll(s, Writes(s, r)[..k]), dir, f)
    ensures Published(net, s, dir, f) || AdmittedBy(net, RulesWanted(r.resolved, dir), f)
  {
    var now := ApplyAll(s, Writes(s, r)[..k]);
    RoundSizes(s, r);
    hide RoundValid, Writes, ApplyAll, Admits, ValidSpec;
    var n :| n in now && AdmittedBy(net, RulesOf(now[n], dir), f);
    AtPrefix(s, r, k, n);
    if IsCreated(r, n, now[n]) {
      var m := CreatedIsPlanned(r, n, now[n]);
      WrittenObject(s, r, m, net, dir, f);
    } else if now[n] in r.plan.update && now[n].name == n {
      WrittenObject(s, r, now[n], net, dir, f);
    }
  }

  lemma PrefixPodsOldOrDesired(s: Objects, r: Round, k: nat, p: PodEndpoint)
    requires ValidStore(s) && RoundValid(s, r) && k <= |Writes(s, r)|
    requires PublishedPod(ApplyAll(s, Writes(s, r)[..k]), p)
    ensures PublishedPod(s, p) || p in r.resolved.pods
  {
    var now := ApplyAll(s, Writes(s, r)[..k]);
    var net, f := Network((a, b) => false, (a, b) => false), Flow(Address(""), "", 0);
    RoundSizes(s, r);
    hide RoundValid, Writes, ApplyAll, Admits, ValidSpec;
    var n :| n in now && p in now[n].pods;
    AtPrefix(s, r, k, n);
    if IsCreated(r, n, now[n]) {
      var m := CreatedIsPlanned(r, n, now[n]);
      WrittenObject(s, r, m, net, Ingress, f);
    } else if now[n] in r.plan.update && now[n].name == n {
      WrittenObject(s, r, now[n], net, Ingress, f);
    }
  }

  /** The first list that holds a key. */
  lemma {:induction false} FirstHolder<T, K>(key: T -> K, cols: seq<seq<T>>, k: K) returns (i: nat)
    requires k in ColumnBag(key, cols)
    ensures i < |cols| && k in Bag(key, cols[i]) && k !in ColumnBag(key, cols[..i])
  {
    var init := cols[..|cols| - 1];
    if k in ColumnBag(key, init) {
      i := FirstHolder(key, init, k);
      assert init[..i] == cols[..i];
    } else {
      i := |cols| - 1;
    }
  }

  lemma KeptByFirst<T, K(!new)>(key: T -> K, cols: seq<seq<T>>, wanted: set<K>, i: nat, k: K)
    requires i < |cols| && k in wanted && k in Bag(key, cols[i]) && k !in ColumnBag(key, cols[..i])
    ensures exists x :: x in Kept(key, cols[i], Left(key, cols[..i], wanted)) && key(x) == k
  {
    hide Kept;
    KeptBag(key, cols[i], Left(key, cols[..i], wanted), k);
    BagMembers(key, Kept(key, cols[i], Left(key, cols[..i], wanted)), k);
  }

  lemma PurgedRules(
    cfg: Config<PolicyHeader, EndpointInfo>, existing: seq<PolicyEndpoint>, d: Desired<EndpointInfo>, dir: Direction, i: nat)
    requires i < |existing|
    ensures |RuleLists(existing, dir)| == |existing| && RuleLists(existing, dir)[i] == RulesOf(existing[i], dir)
    ensures RulesOf(PurgedObject(cfg, existing, d, i), dir) ==
            Kept(cfg.key, RuleLists(existing, dir)[i], Left(cfg.key, RuleLists(existing, dir)[..i], Wanted(d, dir).Keys))
  {
    hide Kept, Left;
    PurgedObjectFields(cfg, existing, d, i);
  }

  /** The first listed object that holds a desired rule keeps it. */
  lemma RuleKept(
    cfg: Config<PolicyHeader, EndpointInfo>, existing: seq<PolicyEndpoint>, d: Desired<EndpointInfo>, dir: Direction, e: EndpointInfo)
    returns (i: nat)
    requires cfg.key == EndpointInfoKey
    requires forall o | o in existing :: ValidRules(RulesOf(o, dir))
    requires ValidRule(e) && EndpointInfoKey(e) in Wanted(d, dir)
    requires EndpointInfoKey(e) in ColumnBag(EndpointInfoKey, RuleLists(existing, dir))
    ensures i < |existing| && e in RulesOf(existing[i], dir) && e in RulesOf(PurgedObject(cfg, existing, d, i), dir)
    ensures !IsBare(PurgedObject(cfg, existing, d, i))
  {
    ListAt(existing, dir);
    hide EndpointInfoKey, ValidRule, ColumnBag, Bag, Kept, Left, Lists, PurgedObject;
    var k, cols := EndpointInfoKey(e), RuleLists(existing, dir);
    i := FirstHolder(EndpointInfoKey, cols, k);
    KeptByFirst(EndpointInfoKey, cols, Wanted(d, dir).Keys, i, k);
    PurgedRules(cfg, existing, d, dir, i);
    var x :| x in Kept(EndpointInfoKey, cols[i], Left(EndpointInfoKey, cols[..i], Wanted(d, dir).Keys)) && EndpointInfoKey(x) == k;
    assert existing[i] in existing;
    EndpointInfoKeyInjective(x, e);
  }

  lemma GrownRules(p: PolicyEndpoint, m: PolicyEndpoint, chunk: nat, dir: Direction, e: EndpointInfo)
    requires Grown(p, m, chunk) && e in RulesOf(p, dir)
    ensures e in RulesOf(m, dir) && m.name == p.name
  {
  }

  lemma ListedValid(s: Objects, listing: seq<string>)
    requires ValidStore(s) && (forall n | n in listing :: n in s)
    ensures forall o | o in ObjectsListed(s, listing) :: ValidSpec(o) && o.name in s && s[o.name] == o
  {
    hide ValidSpec;
  }

  /** A desired rule that is already published stays in the first listed object that holds
      it, and that object is updated. */
  lemma RuleStays(s: Objects, r: Round, dir: Direction, e: EndpointInfo, n: string) returns (m: PolicyEndpoint)
    requires ValidStore(s) && RoundValid(s, r)
    requires e in RulesWanted(r.resolved, dir) && n in s && e in RulesOf(s[n], dir)
    ensures m in PlanOf(s, r).update && e in RulesOf(m, dir)
    ensures m.name in s && e in RulesOf(s[m.name], dir)
  {
    var cfg, existing, d := ConfigOf(r.policy, r.chunk), ObjectsListed(s, r.listing), DesiredBy(r.resolved);
    assert ValidRules(RulesWanted(r.resolved, dir));
    ByKeyMembers(RulesWanted(r.resolved, dir), e);
    ListedHolds(s, r.listing, dir, e, n);
    ListedValid(s, r.listing);
    hide PlanFor, ValidOrder, MergedPlan, EndpointInfoKey, ByKey, ValidRule, ColumnBag, PurgedObject, Grown, Lists, Lists, IsBare, ObjectsListed;
    var i := RuleKept(cfg, existing, d, dir, e);
    m := KeptIsUpdated(cfg, existing, d, r.order, i);
    GrownRules(PurgedObject(cfg, existing, d, i), m, cfg.chunk, dir, e);
    PurgedName(cfg, existing, d, i);
    assert existing[i] in existing;
  }

  lemma PurgedName(cfg: Config<PolicyHeader, EndpointInfo>, existing: seq<PolicyEndpoint>, d: Desired<EndpointInfo>, i: nat)
    requires i < |existing|
    ensures PurgedObject(cfg, existing, d, i).name == existing[i].name
  {
  }

  lemma ListedHolds(s: Objects, listing: seq<string>, dir: Direction, e: EndpointInfo, n: string)
    requires Lists(listing, s.Keys) && (forall x | x in listing :: x in s)
    requires n in s && e in RulesOf(s[n], dir)
    ensures EndpointInfoKey(e) in ColumnBag(EndpointInfoKey, RuleLists(ObjectsListed(s, listing), dir))
  {
    hide EndpointInfoKey, ColumnBag;
    ListsMembers(listing, s.Keys);
    ListAt(ObjectsListed(s, listing), dir);
    ColumnBagMembers(EndpointInfoKey, RuleLists(ObjectsListed(s, listing), dir), EndpointInfoKey(e));
    assert n in listing;
    var i :| 0 <= i < |listing| && listing[i] == n;
    assert e in RuleLists(ObjectsListed(s, listing), dir)[i];
  }

  lemma UpdateUnique(s: Objects, r: Round, a: PolicyEndpoint, b: PolicyEndpoint)
    requires ValidStore(s) && RoundValid(s, r) && a in r.plan.update && b in r.plan.update && a.name == b.name
    ensures a == b
  {
    RoundNames(s, r);
    hide RoundValid;
    var i :| 0 <= i < |r.plan.update| && r.plan.update[i] == a;
    var j :| 0 <= j < |r.plan.update| && r.plan.update[j] == b;
  }

  lemma PodKept(cfg: Config<PolicyHeader, EndpointInfo>, existing: seq<PolicyEndpoint>, d: Desired<EndpointInfo>, p: PodEndpoint)
    returns (i: nat)
    requires p in d.pods && p in ColumnBag(Itself<PodEndpoint>(), PodLists(existing))
    ensures i < |existing| && p in existing[i].pods && p in PurgedObject(cfg, existing, d, i).pods
    ensures !IsBare(PurgedObject(cfg, existing, d, i))
  {
    ColumnLengths(existing);
    hide ColumnBag, Bag, Kept, Left, PodLists;
    var cols := PodLists(existing);
    i := FirstHolder(Itself<PodEndpoint>(), cols, p);
    KeptByFirst(Itself<PodEndpoint>(), cols, d.pods, i, p);
    PurgedObjectFields(cfg, existing, d, i);
    var x :| x in Kept(Itself<PodEndpoint>(), cols[i], Left(Itself<PodEndpoint>(), cols[..i], d.pods)) && Itself<PodEndpoint>()(x) == p;
    assert x == p;
  }

  lemma PodStays(s: Objects, r: Round, p: PodEndpoint, n: string) returns (m: PolicyEndpoint)
    requires ValidStore(s) && RoundValid(s, r)
    requires p in r.resolved.pods && n in s && p in s[n].pods
    ensures m in PlanOf(s, r).update && p in m.pods
    ensures m.name in s && p in s[m.name].pods
  {
    var cfg, existing, d := ConfigOf(r.policy, r.chunk), ObjectsListed(s, r.listing), DesiredBy(r.resolved);
    ListsMembers(r.listing, s.Keys);
    assert p in ColumnBag(Itself<PodEndpoint>(), PodLists(existing)) by {
      PodListMembers(existing, p);
      var i :| 0 <= i < |r.listing| && r.listing[i] == n;
      assert existing[i] in existing;
    }
    ListedValid(s, r.listing);
    hide PlanFor, ValidOrder, MergedPlan, ByKey, ColumnBag, PurgedObject, Lists, Lists, IsBare, ObjectsListed, Itself, PodLists;
    var i := PodKept(cfg, existing, d, p);
    m := KeptIsUpdated(cfg, existing, d, r.order, i);
    PurgedName(cfg, existing, d, i);
    assert existing[i] in existing;
  }

  /** At every prefix a desired pod that was already published stays published. */
  lemma PrefixKeepsPublishedPod(s: Objects, r: Round, k: nat, p: PodEndpoint, n: string)
    requires ValidStore(s) && RoundValid(s, r) && k <= |Writes(s, r)|
    requires p in r.resolved.pods && n in s && p in s[n].pods
    ensures PublishedPod(ApplyAll(s, Writes(s, r)[..k]), p)
  {
    RoundSizes(s, r);
    hide RoundValid, Writes, ApplyAll, ValidSpec, PlanOf, MergedObject, FreshNames;
    var o := PodStays(s, r, p, n);
    var m := MergedImage(s, r, o);
    MergedPods(o, m);
    assert HasName(r.plan.update, m.name);
    AtPrefix(s, r, k, m.name);
    var now := ApplyAll(s, Writes(s, r)[..k]);
    if now[m.name] != s[m.name] {
      UpdateUnique(s, r, m, now[m.name]);
    }
  }

  // ---------------------------------------------------------------- runs of interrupted rounds

  /** A round of which only the first `cut` writes took effect. */
  datatype Attempt = Attempt(round: Round, cut: nat)

  ghost predicate AttemptValid(s: Objects, a: Attempt) {
    RoundValid(s, a.round) && a.cut <= |Writes(s, a.round)|
  }

  ghost function AfterAttempt(s: Objects, a: Attempt): Objects
    requires AttemptValid(s, a)
  {
    ApplyAll(s, Writes(s, a.round)[..a.cut])
  }

  /** Each attempt starts from the store that the one before it left. */
  ghost predicate RunValid(s: Objects, run: seq<Attempt>)
    decreases |run|
  {
    run == [] || (AttemptValid(s, run[0]) && RunValid(AfterAttempt(s, run[0]), run[1..]))
  }

  ghost function AfterRun(s: Objects, run: seq<Attempt>): Objects
    requires RunValid(s, run)
    decreases |run|
  {
    if run == [] then s else AfterRun(AfterAttempt(s, run[0]), run[1..])
  }

  lemma {:induction false} RunKeepsStoreValid(s: Objects, run: seq<Attempt>)
    requires ValidStore(s) && RunValid(s, run)
    ensures ValidStore(AfterRun(s, run))
    decreases |run|
  {
    hide ValidStore;
    if run != [] {
      PrefixKeepsStoreValid(s, run[0].round, run[0].cut);
      RunKeepsStoreValid(AfterAttempt(s, run[0]), run[1..]);
    }
  }

  /** Whatever interrupted rounds came before, with whatever desired endpoints, one complete
      round publishes exactly the latest desired traffic and pods. */
  lemma RunConverges(s: Objects, run: seq<Attempt>, r: Round, net: Network, dir: Direction, f: Flow, p: PodEndpoint)
    requires ValidStore(s) && RunValid(s, run) && RoundValid(AfterRun(s, run), r)
    ensures var now := ApplyAll(AfterRun(s, run), Writes(AfterRun(s, run), r));
            && (Published(net, now, dir, f) <==> AdmittedBy(net, RulesWanted(r.resolved, dir), f))
            && (PublishedPod(now, p) <==> p in r.resolved.pods)
  {
    hide RoundValid, Writes, ApplyAll, Published, PublishedPod, ValidStore, AfterRun;
    RunKeepsStoreValid(s, run);
    CompleteRoundMeaning(AfterRun(s, run), r, net, dir, f);
    CompleteRoundPods(AfterRun(s, run), r, p);
  }

  /** At no time during a run is traffic admitted that neither the initial store nor any of
      the desired sets so far admits. */
  lemma {:induction false} RunAdmitsOnlyOldOrDesired(s: Objects, run: seq<Attempt>, net: Network, dir: Direction, f: Flow)
    requires ValidStore(s) && RunValid(s, run)
    requires Published(net, AfterRun(s, run), dir, f)
    ensures Published(net, s, dir, f) || exists a :: a in run && AdmittedBy(net, RulesWanted(a.round.resolved, dir), f)
    decreases |run|
  {
    hide ValidStore, RoundValid, Published, AdmittedBy;
    if run != [] {
      var next := AfterAttempt(s, run[0]);
      PrefixKeepsStoreValid(s, run[0].round, run[0].cut);
      RunAdmitsOnlyOldOrDesired(next, run[1..], net, dir, f);
      if Published(net, next, dir, f) {
        PrefixAdmitsOnlyOldOrDesired(s, run[0].round, run[0].cut, net, dir, f);
        assert run[0] in run;
      }
    }
  }
}
