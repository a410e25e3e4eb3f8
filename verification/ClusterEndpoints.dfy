/** Computing the ClusterPolicyEndpoints of a ClusterNetworkPolicy. */
module ClusterEndpoints {
  import opened Basics
  import opened Permutations
  import opened PolicyInfo
  import opened Labels
  import opened Framing
  import opened RuleKeys
  import opened Reconciler
  import opened Placement
  import opened ClusterCombine
  import Equality
  import Purge

  datatype NamespacedPod = NamespacedPod(namespaceSelector: LabelSelector, podSelector: LabelSelector)

  datatype Subject = Subject(namespaces: Option<LabelSelector>, pods: Option<NamespacedPod>)

  datatype ClusterHeader = ClusterHeader(policyName: string, tier: string, priority: int, subject: Subject)

  type ClusterPolicyEndpoint = PolicyObject<ClusterHeader, ClusterEndpointInfo>

  /** What the policy says about itself at present. */
  datatype ClusterPolicyMetadata = ClusterPolicyMetadata(name: string, tier: string, priority: int, subject: Subject)

  function RefreshCluster(m: ClusterPolicyMetadata): ClusterHeader -> ClusterHeader {
    (h: ClusterHeader) => h.(tier := m.tier, priority := m.priority, subject := m.subject)
  }

  function ClusterConfig(m: ClusterPolicyMetadata, chunk: nat): Config<ClusterHeader, ClusterEndpointInfo> {
    Config(chunk, ClusterEndpointInfoKey, RefreshCluster(m), ClusterHeader(m.name, m.tier, m.priority, m.subject))
  }

  datatype ClusterResolved = ClusterResolved(
    ingress: seq<ClusterEndpointInfo>, egress: seq<ClusterEndpointInfo>, pods: seq<PodEndpoint>)

  function ClusterDesired(r: ClusterResolved): Desired<ClusterEndpointInfo> {
    DesiredOf(ClusterEndpointInfoKey, r.ingress, r.egress, r.pods)
  }

  // ---------------------------------------------------------------- merging

  ghost predicate ClusterMergedObject(o: ClusterPolicyEndpoint, m: ClusterPolicyEndpoint) {
    && m.name == o.name && m.header == o.header && m.pods == o.pods
    && ClusterCombinedFrom(o.ingress, m.ingress) && ClusterCombinedFrom(o.egress, m.egress)
  }

  ghost predicate ClusterMerged(os: seq<ClusterPolicyEndpoint>, ms: seq<ClusterPolicyEndpoint>) {
    |os| == |ms| && forall i :: 0 <= i < |os| ==> ClusterMergedObject(os[i], ms[i])
  }

  method ProcessClusterPolicyEndpoints(cpes: seq<ClusterPolicyEndpoint>) returns (merged: seq<ClusterPolicyEndpoint>)
    ensures ClusterMerged(cpes, merged)
  {
    hide ClusterCombinedFrom;
    merged := [];
    for i := 0 to |cpes|
      invariant |merged| == i
      invariant forall j :: 0 <= j < i ==> ClusterMergedObject(cpes[j], merged[j])
    {
      var ingress := CombineClusterRulesEndpoints(cpes[i].ingress);
      var egress := CombineClusterRulesEndpoints(cpes[i].egress);
      merged := merged + [cpes[i].(ingress := ingress, egress := egress)];
    }
  }

  /** The computed lists are the merged survivors of the plan. */
  ghost predicate ClusterMergedPlan(p: Plan<ClusterHeader, ClusterEndpointInfo>, m: Plan<ClusterHeader, ClusterEndpointInfo>) {
    ClusterMerged(p.create, m.create) && ClusterMerged(p.update, m.update) && m.delete == p.delete
  }

  method ComputeClusterPolicyEndpoints(
    policy: ClusterPolicyMetadata, chunk: nat, existing: seq<ClusterPolicyEndpoint>, resolved: ClusterResolved)
    returns (create: seq<ClusterPolicyEndpoint>, update: seq<ClusterPolicyEndpoint>, delete: seq<ClusterPolicyEndpoint>,
             ghost order: Order)
    requires chunk > 0 && ProperNames(Names(existing))
    ensures |create| + |update| >= 1 && forall o | o in delete :: IsBare(o)
    ensures ValidOrder(ClusterConfig(policy, chunk), existing, ClusterDesired(resolved), order)
    ensures ClusterMergedPlan(PlanFor(ClusterConfig(policy, chunk), existing, ClusterDesired(resolved), order), Plan(create, update, delete))
  {
    hide PlanFor, ValidOrder, ProperNames, Names, ClusterMergedObject, IsBare;
    var creates, updates;
    creates, updates, delete, order :=
      ComputeEndpoints(ClusterConfig(policy, chunk), existing, resolved.ingress, resolved.egress, resolved.pods);
    create := ProcessClusterPolicyEndpoints(creates);
    update := ProcessClusterPolicyEndpoints(updates);
  }

  // ---------------------------------------------------------------- every survivor is current

  ghost predicate Current(policy: ClusterPolicyMetadata, o: ClusterPolicyEndpoint) {
    o.header.tier == policy.tier && o.header.priority == policy.priority && o.header.subject == policy.subject
  }

  lemma SurvivorCurrent(
    policy: ClusterPolicyMetadata, chunk: nat, existing: seq<ClusterPolicyEndpoint>, d: Desired<ClusterEndpointInfo>,
    order: Order, o: ClusterPolicyEndpoint)
    requires chunk > 0 && ValidOrder(ClusterConfig(policy, chunk), existing, d, order)
    requires o in Surviving(PlanFor(ClusterConfig(policy, chunk), existing, d, order))
    ensures Current(policy, o)
  {
    var cfg := ClusterConfig(policy, chunk);
    hide PlanFor, ValidOrder;
    PlanShape(cfg, existing, d, order);
    if o in PlanFor(cfg, existing, d, order).update {
      var i := UpdateOrigin(cfg, existing, d, order, o);
    }
  }

  /** Every created or updated object carries the policy's present tier, priority and subject. */
  lemma WrittenObjectsCurrent(
    policy: ClusterPolicyMetadata, chunk: nat, existing: seq<ClusterPolicyEndpoint>, d: Desired<ClusterEndpointInfo>,
    order: Order, m: Plan<ClusterHeader, ClusterEndpointInfo>, o: ClusterPolicyEndpoint)
    requires chunk > 0 && ValidOrder(ClusterConfig(policy, chunk), existing, d, order)
    requires ClusterMergedPlan(PlanFor(ClusterConfig(policy, chunk), existing, d, order), m)
    requires o in m.create || o in m.update
    ensures Current(policy, o)
  {
    hide PlanFor, ValidOrder, ClusterCombinedFrom, Current;
    var before := MergedFrom(PlanFor(ClusterConfig(policy, chunk), existing, d, order), m, o);
    SurvivorCurrent(policy, chunk, existing, d, order, before);
    CurrentCarries(policy, before, o);
  }

  lemma CurrentCarries(policy: ClusterPolicyMetadata, a: ClusterPolicyEndpoint, b: ClusterPolicyEndpoint)
    requires Current(policy, a) && a.header == b.header
    ensures Current(policy, b)
  {
  }

  /** A created object names the policy. */
  lemma CreatedNamesPolicy(
    policy: ClusterPolicyMetadata, chunk: nat, existing: seq<ClusterPolicyEndpoint>, d: Desired<ClusterEndpointInfo>,
    order: Order, m: Plan<ClusterHeader, ClusterEndpointInfo>, o: ClusterPolicyEndpoint)
    requires chunk > 0 && ValidOrder(ClusterConfig(policy, chunk), existing, d, order)
    requires ClusterMergedPlan(PlanFor(ClusterConfig(policy, chunk), existing, d, order), m) && o in m.create
    ensures o.header.policyName == policy.name
  {
    var cfg := ClusterConfig(policy, chunk);
    hide PlanFor, ValidOrder, ClusterMergedObject;
    PlanShape(cfg, existing, d, order);
    var i :| 0 <= i < |m.create| && m.create[i] == o;
    MergedHeader(PlanFor(cfg, existing, d, order).create[i], o);
  }

  lemma MergedHeader(a: ClusterPolicyEndpoint, b: ClusterPolicyEndpoint)
    requires ClusterMergedObject(a, b)
    ensures a.header == b.header && a.name == b.name
  {
    hide ClusterCombinedFrom;
  }

  /** An updated object keeps the policy name of the existing object that it updates. */
  lemma UpdatedKeepsName(
    policy: ClusterPolicyMetadata, chunk: nat, existing: seq<ClusterPolicyEndpoint>, d: Desired<ClusterEndpointInfo>,
    order: Order, m: Plan<ClusterHeader, ClusterEndpointInfo>, o: ClusterPolicyEndpoint) returns (i: nat)
    requires chunk > 0 && ValidOrder(ClusterConfig(policy, chunk), existing, d, order)
    requires ClusterMergedPlan(PlanFor(ClusterConfig(policy, chunk), existing, d, order), m) && o in m.update
    ensures i < |existing| && existing[i].name == o.name && existing[i].header.policyName == o.header.policyName
  {
    var cfg := ClusterConfig(policy, chunk);
    hide PlanFor, ValidOrder, ClusterMergedObject, Purge.Kept, Purge.Left;
    var k :| 0 <= k < |m.update| && m.update[k] == o;
    var u := PlanFor(cfg, existing, d, order).update[k];
    MergedHeader(u, o);
    i := UpdateOrigin(cfg, existing, d, order, u);
  }

  /** When all existing objects name the policy, so do all objects that are written. */
  lemma WrittenNamePolicy(
    policy: ClusterPolicyMetadata, chunk: nat, existing: seq<ClusterPolicyEndpoint>, d: Desired<ClusterEndpointInfo>,
    order: Order, m: Plan<ClusterHeader, ClusterEndpointInfo>, o: ClusterPolicyEndpoint)
    requires chunk > 0 && ValidOrder(ClusterConfig(policy, chunk), existing, d, order)
    requires ClusterMergedPlan(PlanFor(ClusterConfig(policy, chunk), existing, d, order), m)
    requires o in m.create || o in m.update
    requires forall e | e in existing :: e.header.policyName == policy.name
    ensures o.header.policyName == policy.name
  {
    hide PlanFor, ValidOrder, ClusterMergedPlan;
    if o in m.create {
      CreatedNamesPolicy(policy, chunk, existing, d, order, m, o);
    } else {
      var i := UpdatedKeepsName(policy, chunk, existing, d, order, m, o);
    }
  }

  /** The survivor behind a written object. */
  lemma MergedFrom(
    p: Plan<ClusterHeader, ClusterEndpointInfo>, m: Plan<ClusterHeader, ClusterEndpointInfo>, o: ClusterPolicyEndpoint)
    returns (before: ClusterPolicyEndpoint)
    requires ClusterMergedPlan(p, m) && (o in m.create || o in m.update)
    ensures before in Surviving(p) && ClusterMergedObject(before, o)
  {
    hide ClusterMergedObject;
    if o in m.create {
      var i :| 0 <= i < |m.create| && m.create[i] == o;
      before := p.create[i];
    } else {
      var i :| 0 <= i < |m.update| && m.update[i] == o;
      before := p.update[i];
    }
  }

  lemma MergedTo(
    p: Plan<ClusterHeader, ClusterEndpointInfo>, m: Plan<ClusterHeader, ClusterEndpointInfo>, before: ClusterPolicyEndpoint)
    returns (o: ClusterPolicyEndpoint)
    requires ClusterMergedPlan(p, m) && before in Surviving(p)
    ensures (o in m.create || o in m.update) && ClusterMergedObject(before, o)
  {
    hide ClusterMergedObject;
    if before in p.create {
      var i :| 0 <= i < |p.create| && p.create[i] == before;
      o := m.create[i];
    } else {
      var i :| 0 <= i < |p.update| && p.update[i] == before;
      o := m.update[i];
    }
  }

  // ---------------------------------------------------------------- rules are conserved

  function RulesOn(o: ClusterPolicyEndpoint, dir: Direction): seq<ClusterEndpointInfo> {
    if dir.Ingress? then o.ingress else o.egress
  }

  function WantedOn(r: ClusterResolved, dir: Direction): seq<ClusterEndpointInfo> {
    if dir.Ingress? then r.ingress else r.egress
  }

  ghost function ListsOn(objs: seq<ClusterPolicyEndpoint>, dir: Direction): (r: seq<seq<ClusterEndpointInfo>>)
    ensures |r| == |objs| && forall i :: 0 <= i < |objs| ==> r[i] == RulesOn(objs[i], dir)
  {
    if dir.Ingress? then Ingresses(objs) else Egresses(objs)
  }

  function RuleTest(): ClusterEndpointInfo -> bool { (e: ClusterEndpointInfo) => ValidClusterRule(e) }

  function AnyPod(): PodEndpoint -> bool { (p: PodEndpoint) => true }

  /** Existing and resolved rules are well-formed. */
  ghost predicate ValidInputs(existing: seq<ClusterPolicyEndpoint>, r: ClusterResolved) {
    && AllEntries(RuleTest(), AnyPod(), existing)
    && ValidClusterRules(r.ingress) && ValidClusterRules(r.egress)
  }

  ghost function ClusterPlan(
    policy: ClusterPolicyMetadata, chunk: nat, existing: seq<ClusterPolicyEndpoint>, r: ClusterResolved, order: Order):
    Plan<ClusterHeader, ClusterEndpointInfo>
    requires chunk > 0 && ValidOrder(ClusterConfig(policy, chunk), existing, ClusterDesired(r), order)
  {
    PlanFor(ClusterConfig(policy, chunk), existing, ClusterDesired(r), order)
  }

  lemma DesiredGood(r: ClusterResolved)
    requires ValidClusterRules(r.ingress) && ValidClusterRules(r.egress)
    ensures GoodDesired(RuleTest(), AnyPod(), ClusterDesired(r))
    ensures WellKeyed(ClusterEndpointInfoKey, ClusterDesired(r).ingress) && WellKeyed(ClusterEndpointInfoKey, ClusterDesired(r).egress)
  {
    hide ValidClusterRule, ClusterEndpointInfoKey;
  }

  /** Every desired key is held exactly once by the survivors, before merging. */
  lemma ClusterKeysConserved(
    policy: ClusterPolicyMetadata, chunk: nat, existing: seq<ClusterPolicyEndpoint>, r: ClusterResolved, order: Order, dir: Direction)
    requires chunk > 0 && ValidOrder(ClusterConfig(policy, chunk), existing, ClusterDesired(r), order)
    requires ValidInputs(existing, r)
    ensures ColumnBag(ClusterEndpointInfoKey, ListsOn(Surviving(ClusterPlan(policy, chunk, existing, r, order)), dir)) ==
            multiset(ByKey(ClusterEndpointInfoKey, WantedOn(r, dir)).Keys)
  {
    hide PlanFor, ValidOrder, ClusterEndpointInfoKey, ColumnBag, ByKey, ValidClusterRule;
    DesiredGood(r);
    ExactlyOnce(ClusterConfig(policy, chunk), existing, ClusterDesired(r), order);
  }

  lemma SurvivorRulesValid(
    policy: ClusterPolicyMetadata, chunk: nat, existing: seq<ClusterPolicyEndpoint>, r: ClusterResolved, order: Order,
    o: ClusterPolicyEndpoint, dir: Direction)
    requires chunk > 0 && ValidOrder(ClusterConfig(policy, chunk), existing, ClusterDesired(r), order)
    requires ValidInputs(existing, r) && o in Surviving(ClusterPlan(policy, chunk, existing, r, order))
    ensures ValidClusterRules(RulesOn(o, dir))
  {
    hide PlanFor, ValidOrder, ValidClusterRule;
    DesiredGood(r);
    PlanEntriesGood(RuleTest(), AnyPod(), ClusterConfig(policy, chunk), existing, ClusterDesired(r), order);
    assert GoodObject(RuleTest(), AnyPod(), o);
  }

  /** A survivor holds only desired rules. */
  lemma SurvivorHoldsDesired(
    policy: ClusterPolicyMetadata, chunk: nat, existing: seq<ClusterPolicyEndpoint>, r: ClusterResolved, order: Order,
    o: ClusterPolicyEndpoint, dir: Direction, x: ClusterEndpointInfo)
    requires chunk > 0 && ValidOrder(ClusterConfig(policy, chunk), existing, ClusterDesired(r), order)
    requires ValidInputs(existing, r) && o in Surviving(ClusterPlan(policy, chunk, existing, r, order)) && x in RulesOn(o, dir)
    ensures x in WantedOn(r, dir)
  {
    var survivors := Surviving(ClusterPlan(policy, chunk, existing, r, order));
    var m := ByKey(ClusterEndpointInfoKey, WantedOn(r, dir));
    hide ClusterPlan, ValidOrder, ClusterEndpointInfoKey, ColumnBag, ByKey, ValidClusterRule, RulesOn;
    ClusterKeysConserved(policy, chunk, existing, r, order, dir);
    SurvivorRulesValid(policy, chunk, existing, r, order, o, dir);
    var i :| 0 <= i < |survivors| && survivors[i] == o;
    ColumnBagMembers(ClusterEndpointInfoKey, ListsOn(survivors, dir), ClusterEndpointInfoKey(x));
    assert x in ListsOn(survivors, dir)[i];
    assert ClusterEndpointInfoKey(x) in m;
    ClusterEndpointInfoKeyInjective(m[ClusterEndpointInfoKey(x)], x);
  }

  /** Every desired rule is held by a survivor. */
  lemma DesiredIsHeld(
    policy: ClusterPolicyMetadata, chunk: nat, existing: seq<ClusterPolicyEndpoint>, r: ClusterResolved, order: Order,
    dir: Direction, e: ClusterEndpointInfo) returns (o: ClusterPolicyEndpoint)
    requires chunk > 0 && ValidOrder(ClusterConfig(policy, chunk), existing, ClusterDesired(r), order)
    requires ValidInputs(existing, r) && e in WantedOn(r, dir)
    ensures o in Surviving(ClusterPlan(policy, chunk, existing, r, order)) && e in RulesOn(o, dir)
  {
    var survivors := Surviving(ClusterPlan(policy, chunk, existing, r, order));
    hide ClusterPlan, ValidOrder, ClusterEndpointInfoKey, ColumnBag, ByKey, ValidClusterRule, RulesOn;
    ClusterKeysConserved(policy, chunk, existing, r, order, dir);
    var k := ClusterEndpointInfoKey(e);
    assert k in ByKey(ClusterEndpointInfoKey, WantedOn(r, dir)).Keys;
    ColumnBagMembers(ClusterEndpointInfoKey, ListsOn(survivors, dir), k);
    var i, x :| 0 <= i < |survivors| && x in ListsOn(survivors, dir)[i] && ClusterEndpointInfoKey(x) == k;
    o := survivors[i];
    SurvivorRulesValid(policy, chunk, existing, r, order, o, dir);
    ClusterEndpointInfoKeyInjective(x, e);
  }

  // ---------------------------------------------------------------- meaning after merging

  ghost predicate WrittenApplies(
    m: Plan<ClusterHeader, ClusterEndpointInfo>, dir: Direction, n: Network, action: string, f: Flow)
  {
    exists o :: (o in m.create || o in m.update) && Applies(n, RulesOn(o, dir), action, f)
  }

  lemma PartInherits(part: seq<ClusterEndpointInfo>, whole: seq<ClusterEndpointInfo>)
    requires forall x | x in part :: x in whole
    ensures AddressesApart(whole) ==> AddressesApart(part)
    ensures Mixed(part) ==> Mixed(whole)
  {
  }

  lemma MergedOnSide(a: ClusterPolicyEndpoint, b: ClusterPolicyEndpoint, dir: Direction)
    requires ClusterMergedObject(a, b)
    ensures ClusterCombinedFrom(RulesOn(a, dir), RulesOn(b, dir))
  {
    hide ClusterCombinedFrom;
  }

  /** The written objects apply an action only where a desired rule does. */
  lemma ClusterRoundSound(
    policy: ClusterPolicyMetadata, chunk: nat, existing: seq<ClusterPolicyEndpoint>, r: ClusterResolved, order: Order,
    m: Plan<ClusterHeader, ClusterEndpointInfo>, dir: Direction, n: Network, action: string, f: Flow)
    requires chunk > 0 && ValidOrder(ClusterConfig(policy, chunk), existing, ClusterDesired(r), order)
    requires ValidInputs(existing, r) && AddressesApart(WantedOn(r, dir))
    requires ClusterMergedPlan(ClusterPlan(policy, chunk, existing, r, order), m)
    requires WrittenApplies(m, dir, n, action, f)
    ensures Applies(n, WantedOn(r, dir), action, f)
  {
    var plan := ClusterPlan(policy, chunk, existing, r, order);
    hide ClusterPlan, ValidOrder, ClusterMergedObject, ClusterMergedPlan, AddressesApart, Mixed, ValidClusterRules, ClusterAdmits, Surviving, ValidInputs;
    var o :| (o in m.create || o in m.update) && Applies(n, RulesOn(o, dir), action, f);
    var before := MergedFrom(plan, m, o);
    MergedOnSide(before, o, dir);
    SurvivorPart(policy, chunk, existing, r, order, before, dir);
    ClusterCombineSound(RulesOn(before, dir), RulesOn(o, dir), n, action, f);
  }

  /** The rules of a survivor are well-formed desired ones. */
  lemma SurvivorPart(
    policy: ClusterPolicyMetadata, chunk: nat, existing: seq<ClusterPolicyEndpoint>, r: ClusterResolved, order: Order,
    before: ClusterPolicyEndpoint, dir: Direction)
    requires chunk > 0 && ValidOrder(ClusterConfig(policy, chunk), existing, ClusterDesired(r), order)
    requires ValidInputs(existing, r) && before in Surviving(ClusterPlan(policy, chunk, existing, r, order))
    ensures ValidClusterRules(RulesOn(before, dir)) && forall x | x in RulesOn(before, dir) :: x in WantedOn(r, dir)
    ensures AddressesApart(WantedOn(r, dir)) ==> AddressesApart(RulesOn(before, dir))
    ensures Mixed(RulesOn(before, dir)) ==> Mixed(WantedOn(r, dir))
  {
    hide *;
    forall x | x in RulesOn(before, dir) ensures x in WantedOn(r, dir) {
      SurvivorHoldsDesired(policy, chunk, existing, r, order, before, dir, x);
    }
    PartInherits(RulesOn(before, dir), WantedOn(r, dir));
    SurvivorRulesValid(policy, chunk, existing, r, order, before, dir);
  }

  // ---------------------------------------------------------------- exactly when nothing is lost

  /** Some survivor holds a rule for all ports together with one for some ports of the same
      address and action. */
  ghost predicate MixedTogether(objs: seq<ClusterPolicyEndpoint>, dir: Direction) {
    exists o :: o in objs && Mixed(RulesOn(o, dir))
  }

  /** What is counted once is held at one place. */
  lemma HeldAtOnePlace<T, K>(key: T -> K, lists: seq<seq<T>>, a: T, i: nat, j: nat)
    requires i < |lists| && j < |lists| && a in lists[i] && a in lists[j]
    requires ColumnBag(key, lists)[key(a)] <= 1
    ensures i == j
  {
    hide *;
    if i != j {
      var x, y := if i < j then i else j, if i < j then j else i;
      BagInColumn(key, lists, y, key(a));
      assert a in lists[..y][x];
      ColumnBagMembers(key, lists[..y], key(a));
      BagMembers(key, lists[y], key(a));
    }
  }

  /** A merged rule for all ports stands for a rule for all ports. */
  lemma MergedAllPorts(eps: seq<ClusterEndpointInfo>, r: seq<ClusterEndpointInfo>, e: ClusterEndpointInfo)
    returns (x: ClusterEndpointInfo)
    requires ValidClusterRules(eps) && AddressesApart(eps) && ClusterCombinedFrom(eps, r)
    requires e in r && e.ports == []
    ensures x in eps && SameIdentity(e, x) && x.ports == []
    ensures forall y | y in eps && SameIdentity(x, y) :: y.ports == []
    ensures ValidClusterRule(e)
  {
    hide ClusterMap, ClusterCombinedFrom, ClusterKey, AddressesApart, ValidClusterRule;
    var order := ClusterListing(eps, r);
    var i :| 0 <= i < |r| && r[i] == e;
    ClusterMapPorts(eps, order[i], Flow(Address(""), "", 0));
    ClusterMapOrigin(eps, order[i]);
    x :| x in eps && ClusterKey(x) == Some(order[i]) && SameIdentity(e, x);
    forall y | y in eps && SameIdentity(x, y) ensures y.ports == [] {
      ClusterKeyIdentity(eps, x, y);
    }
  }

  /** The flow that only a rule for all ports of the address and action of `a` admits. */
  lemma OnlyAllPorts(a: ClusterEndpointInfo, e: ClusterEndpointInfo)
    requires ValidClusterRule(a) && ValidClusterRule(e) && e.action == a.action
    requires ClusterAdmits(OnlyMatching(a), e, Flow(TargetOf(a), "", 0))
    ensures SameIdentity(e, a) && e.ports == []
  {
    NoPortAdmits(e.ports, Flow(TargetOf(a), "", 0));
  }

  lemma AllPortsAdmit(a: ClusterEndpointInfo)
    requires ValidClusterRule(a) && a.ports == []
    ensures ClusterAdmits(OnlyMatching(a), a, Flow(TargetOf(a), "", 0))
  {
  }

  lemma ValidAmong(rules: seq<ClusterEndpointInfo>, e: ClusterEndpointInfo)
    requires ValidClusterRules(rules) && e in rules
    ensures ValidClusterRule(e)
  {
    hide ValidClusterRule;
  }

  /** Rules without `a`, or with a rule for some ports beside it, do not admit that flow once merged. */
  lemma MergedSilent(eps: seq<ClusterEndpointInfo>, merged: seq<ClusterEndpointInfo>, a: ClusterEndpointInfo)
    requires ValidClusterRules(eps) && AddressesApart(eps) && ClusterCombinedFrom(eps, merged)
    requires ValidClusterRule(a) && a.ports == []
    requires a !in eps || exists b :: b in eps && SameIdentity(a, b) && b.ports != []
    ensures !Applies(OnlyMatching(a), merged, a.action, Flow(TargetOf(a), "", 0))
  {
    var n, f := OnlyMatching(a), Flow(TargetOf(a), "", 0);
    hide ClusterCombinedFrom, AddressesApart, ClusterAdmits, OnlyMatching, TargetOf, ValidClusterRule;
    ClusterCombineShape(eps, merged);
    if Applies(n, merged, a.action, f) {
      var e :| e in merged && e.action == a.action && ClusterAdmits(n, e, f);
      OnlyAllPorts(a, e);
      var x := MergedAllPorts(eps, merged, e);
      assert false;
    }
  }

  lemma CountedOnce<K>(s: set<K>, k: K)
    ensures multiset(s)[k] <= 1
  {
  }

  /** No rule is held by two survivors. */
  lemma OnlySurvivorHolds(
    policy: ClusterPolicyMetadata, chunk: nat, existing: seq<ClusterPolicyEndpoint>, r: ClusterResolved, order: Order,
    dir: Direction, a: ClusterEndpointInfo, o: ClusterPolicyEndpoint, before: ClusterPolicyEndpoint)
    requires chunk > 0 && ValidOrder(ClusterConfig(policy, chunk), existing, ClusterDesired(r), order)
    requires ValidInputs(existing, r)
    requires o in Surviving(ClusterPlan(policy, chunk, existing, r, order)) && a in RulesOn(o, dir)
    requires before in Surviving(ClusterPlan(policy, chunk, existing, r, order)) && a in RulesOn(before, dir)
    ensures before == o
  {
    hide *;
    ClusterKeysConserved(policy, chunk, existing, r, order, dir);
    CountedOnce(ByKey(ClusterEndpointInfoKey, WantedOn(r, dir)).Keys, ClusterEndpointInfoKey(a));
    HolderUnique(Surviving(ClusterPlan(policy, chunk, existing, r, order)), dir, a, o, before);
  }

  lemma HolderUnique(objs: seq<ClusterPolicyEndpoint>, dir: Direction, a: ClusterEndpointInfo, o: ClusterPolicyEndpoint, before: ClusterPolicyEndpoint)
    requires ColumnBag(ClusterEndpointInfoKey, ListsOn(objs, dir))[ClusterEndpointInfoKey(a)] <= 1
    requires o in objs && a in RulesOn(o, dir) && before in objs && a in RulesOn(before, dir)
    ensures before == o
  {
    hide *;
    var i: nat :| i < |objs| && objs[i] == o;
    var j: nat :| j < |objs| && objs[j] == before;
    HeldAtOnePlace(ClusterEndpointInfoKey, ListsOn(objs, dir), a, i, j);
  }

  /** A survivor with such a pair loses traffic, and no other survivor makes up for it. */
  lemma MixedSurvivorLoses(
    policy: ClusterPolicyMetadata, chunk: nat, existing: seq<ClusterPolicyEndpoint>, r: ClusterResolved, order: Order,
    m: Plan<ClusterHeader, ClusterEndpointInfo>, dir: Direction, o: ClusterPolicyEndpoint, a: ClusterEndpointInfo, b: ClusterEndpointInfo)
    requires chunk > 0 && ValidOrder(ClusterConfig(policy, chunk), existing, ClusterDesired(r), order)
    requires ValidInputs(existing, r) && AddressesApart(WantedOn(r, dir))
    requires ClusterMergedPlan(ClusterPlan(policy, chunk, existing, r, order), m)
    requires o in Surviving(ClusterPlan(policy, chunk, existing, r, order))
    requires a in RulesOn(o, dir) && b in RulesOn(o, dir) && SameIdentity(a, b) && a.ports == [] && b.ports != []
    ensures var n, f := OnlyMatching(a), Flow(TargetOf(a), "", 0);
            Applies(n, WantedOn(r, dir), a.action, f) && !WrittenApplies(m, dir, n, a.action, f)
  {
    var plan := ClusterPlan(policy, chunk, existing, r, order);
    var n, f := OnlyMatching(a), Flow(TargetOf(a), "", 0);
    hide *;
    SurvivorPart(policy, chunk, existing, r, order, o, dir);
    ValidAmong(RulesOn(o, dir), a);
    AllPortsAdmit(a);
    AppliesDef(n, WantedOn(r, dir), a, f);
    forall w | w in m.create || w in m.update ensures !Applies(n, RulesOn(w, dir), a.action, f) {
      var before := MergedFrom(plan, m, w);
      MergedOnSide(before, w, dir);
      SurvivorPart(policy, chunk, existing, r, order, before, dir);
      if a in RulesOn(before, dir) {
        OnlySurvivorHolds(policy, chunk, existing, r, order, dir, a, o, before);
      }
      MergedSilent(RulesOn(before, dir), RulesOn(w, dir), a);
    }
    NoneApplies(m, dir, n, a.action, f);
  }

  lemma AppliesDef(n: Network, rules: seq<ClusterEndpointInfo>, e: ClusterEndpointInfo, f: Flow)
    requires e in rules && ClusterAdmits(n, e, f)
    ensures Applies(n, rules, e.action, f)
  {
    hide ClusterAdmits;
  }

  lemma NoneApplies(m: Plan<ClusterHeader, ClusterEndpointInfo>, dir: Direction, n: Network, action: string, f: Flow)
    requires forall w | w in m.create || w in m.update :: !Applies(n, RulesOn(w, dir), action, f)
    ensures !WrittenApplies(m, dir, n, action, f)
  {
    hide Applies, RulesOn;
  }

  lemma UnmixedIsComplete(
    policy: ClusterPolicyMetadata, chunk: nat, existing: seq<ClusterPolicyEndpoint>, r: ClusterResolved, order: Order,
    m: Plan<ClusterHeader, ClusterEndpointInfo>, dir: Direction, n: Network, action: string, f: Flow)
    requires chunk > 0 && ValidOrder(ClusterConfig(policy, chunk), existing, ClusterDesired(r), order)
    requires ValidInputs(existing, r) && AddressesApart(WantedOn(r, dir))
    requires ClusterMergedPlan(ClusterPlan(policy, chunk, existing, r, order), m)
    requires !MixedTogether(Surviving(ClusterPlan(policy, chunk, existing, r, order)), dir)
    requires Applies(n, WantedOn(r, dir), action, f)
    ensures WrittenApplies(m, dir, n, action, f)
  {
    var plan := ClusterPlan(policy, chunk, existing, r, order);
    hide ClusterPlan, ValidOrder, ClusterMergedObject, ClusterMergedPlan, AddressesApart, Mixed, ValidClusterRules, ClusterAdmits, Surviving, ValidInputs;
    var e :| e in WantedOn(r, dir) && e.action == action && ClusterAdmits(n, e, f);
    var before := DesiredIsHeld(policy, chunk, existing, r, order, dir, e);
    var o := MergedTo(plan, m, before);
    MergedOnSide(before, o, dir);
    SurvivorPart(policy, chunk, existing, r, order, before, dir);
    assert Applies(n, RulesOn(before, dir), action, f);
    ClusterCombineComplete(RulesOn(before, dir), RulesOn(o, dir), n, action, f);
  }

  /** The written objects apply exactly the desired rules, for every network, action and flow, if
      and only if no survivor of the plan holds a rule for all ports together with a rule for
      some ports of the same address and action. */
  lemma ClusterRoundExact(
    policy: ClusterPolicyMetadata, chunk: nat, existing: seq<ClusterPolicyEndpoint>, r: ClusterResolved, order: Order,
    m: Plan<ClusterHeader, ClusterEndpointInfo>, dir: Direction)
    requires chunk > 0 && ValidOrder(ClusterConfig(policy, chunk), existing, ClusterDesired(r), order)
    requires ValidInputs(existing, r) && AddressesApart(WantedOn(r, dir))
    requires ClusterMergedPlan(ClusterPlan(policy, chunk, existing, r, order), m)
    ensures (forall n, action, f :: WrittenApplies(m, dir, n, action, f) <==> Applies(n, WantedOn(r, dir), action, f)) <==>
            !MixedTogether(Surviving(ClusterPlan(policy, chunk, existing, r, order)), dir)
  {
    var survivors := Surviving(ClusterPlan(policy, chunk, existing, r, order));
    hide ClusterPlan, ValidOrder, ClusterMergedPlan, AddressesApart, Surviving, ValidInputs, WrittenApplies, Applies, SameIdentity;
    if MixedTogether(survivors, dir) {
      var o :| o in survivors && Mixed(RulesOn(o, dir));
      var a, b :| a in RulesOn(o, dir) && b in RulesOn(o, dir) && SameIdentity(a, b) && a.ports == [] && b.ports != [];
      MixedSurvivorLoses(policy, chunk, existing, r, order, m, dir, o, a, b);
    } else {
      forall n, action, f ensures WrittenApplies(m, dir, n, action, f) <==> Applies(n, WantedOn(r, dir), action, f) {
        if WrittenApplies(m, dir, n, action, f) {
          ClusterRoundSound(policy, chunk, existing, r, order, m, dir, n, action, f);
        }
        if Applies(n, WantedOn(r, dir), action, f) {
          UnmixedIsComplete(policy, chunk, existing, r, order, m, dir, n, action, f);
        }
      }
    }
  }

  /** In particular when no desired rule for all ports shares its address and action with a rule
      for some ports. */
  lemma ClusterRoundMeaning(
    policy: ClusterPolicyMetadata, chunk: nat, existing: seq<ClusterPolicyEndpoint>, r: ClusterResolved, order: Order,
    m: Plan<ClusterHeader, ClusterEndpointInfo>, dir: Direction, n: Network, action: string, f: Flow)
    requires chunk > 0 && ValidOrder(ClusterConfig(policy, chunk), existing, ClusterDesired(r), order)
    requires ValidInputs(existing, r) && AddressesApart(WantedOn(r, dir))
    requires ClusterMergedPlan(ClusterPlan(policy, chunk, existing, r, order), m)
    ensures WrittenApplies(m, dir, n, action, f) ==> Applies(n, WantedOn(r, dir), action, f)
    ensures !Mixed(WantedOn(r, dir)) && Applies(n, WantedOn(r, dir), action, f) ==> WrittenApplies(m, dir, n, action, f)
  {
    hide ClusterPlan, ValidOrder, ClusterMergedPlan, AddressesApart, Mixed, Surviving, ValidInputs, WrittenApplies, Applies, RulesOn, WantedOn;
    if WrittenApplies(m, dir, n, action, f) {
      ClusterRoundSound(policy, chunk, existing, r, order, m, dir, n, action, f);
    }
    if !Mixed(WantedOn(r, dir)) && Applies(n, WantedOn(r, dir), action, f) {
      forall o | o in Surviving(ClusterPlan(policy, chunk, existing, r, order)) ensures !Mixed(RulesOn(o, dir)) {
        SurvivorPart(policy, chunk, existing, r, order, o, dir);
      }
      UnmixedIsComplete(policy, chunk, existing, r, order, m, dir, n, action, f);
    }
  }

  // ---------------------------------------------------------------- EqualClusterPolicyEndpointSpec

  function ClusterRuleTokens(e: ClusterEndpointInfo): seq<string> {
    ["cidr=" + e.cidr, "domain=" + e.domainName, "action=" + e.action,
     "ports=" + Equality.CanonicalList(Equality.PortTexts(e.ports))]
  }

  function ClusterText(e: ClusterEndpointInfo): string { Equality.Join(',', ClusterRuleTokens(e)) }

  ghost predicate ClusterSpecEqual(a: ClusterPolicyEndpoint, b: ClusterPolicyEndpoint) {
    && a.header == b.header
    && Bag(ClusterText, a.ingress) == Bag(ClusterText, b.ingress)
    && Bag(ClusterText, a.egress) == Bag(ClusterText, b.egress)
    && Bag(Equality.PodText, a.pods) == Bag(Equality.PodText, b.pods)
  }

  method EqualClusterPolicyEndpointSpec(a: ClusterPolicyEndpoint, b: ClusterPolicyEndpoint) returns (r: bool)
    ensures r <==> ClusterSpecEqual(a, b)
  {
    hide Bag, ClusterText, Equality.PodText;
    if a.header.policyName != b.header.policyName {
      return false;
    }
    if a.header.tier != b.header.tier {
      return false;
    }
    if a.header.priority != b.header.priority {
      return false;
    }
    if a.header.subject != b.header.subject {
      return false;
    }
    var same := Equality.EqualByKey(ClusterText, a.ingress, b.ingress);
    if !same {
      return false;
    }
    same := Equality.EqualByKey(ClusterText, a.egress, b.egress);
    if !same {
      return false;
    }
    same := Equality.EqualByKey(Equality.PodText, a.pods, b.pods);
    return same;
  }

  /** A cluster rule up to the order of its ports. */
  datatype ClusterCanon = ClusterCanon(cidr: string, domainName: string, action: string, ports: multiset<Port>)

  function ClusterCanonOf(e: ClusterEndpointInfo): ClusterCanon {
    ClusterCanon(e.cidr, e.domainName, e.action, multiset(e.ports))
  }

  lemma ClusterTextTokens(e: ClusterEndpointInfo)
    requires ValidClusterRule(e)
    ensures ClusterText(e) + "," == Frame(',', ClusterRuleTokens(e))
    ensures Free(',', ClusterRuleTokens(e))
  {
    Equality.PortTextsClean(e.ports);
    Equality.CanonicalListClean(Equality.PortTexts(e.ports));
    hide Equality.CanonicalList, Equality.PortTexts, Equality.Join;
    Equality.JoinFramed(',', ClusterRuleTokens(e));
  }

  lemma ClusterTextExact(a: ClusterEndpointInfo, b: ClusterEndpointInfo)
    requires ValidClusterRule(a) && ValidClusterRule(b)
    ensures ClusterText(a) == ClusterText(b) <==> ClusterCanonOf(a) == ClusterCanonOf(b)
  {
    Equality.PortTextsClean(a.ports);
    Equality.PortTextsClean(b.ports);
    Equality.CanonicalListExact(Equality.PortTexts(a.ports), Equality.PortTexts(b.ports));
    Equality.PortTextsExact(a.ports, b.ports);
    hide Equality.CanonicalList, Equality.PortTexts, Frame, Equality.Join;
    ClusterTextTokens(a);
    ClusterTextTokens(b);
    if ClusterText(a) == ClusterText(b) {
      var s, t := ClusterRuleTokens(a), ClusterRuleTokens(b);
      FrameInjective(',', s, t);
      assert s[0] == t[0] && s[1] == t[1] && s[2] == t[2] && s[3] == t[3];
      Equality.Tagged("cidr=", a.cidr, b.cidr);
      Equality.Tagged("domain=", a.domainName, b.domainName);
      Equality.Tagged("action=", a.action, b.action);
      Equality.Tagged("ports=", Equality.CanonicalList(Equality.PortTexts(a.ports)), Equality.CanonicalList(Equality.PortTexts(b.ports)));
    }
  }

  /** Cluster rule lists compare equal exactly when they are permutations of each other up to
      the order of ports. */
  lemma ClusterRulesEqualExact(a: seq<ClusterEndpointInfo>, b: seq<ClusterEndpointInfo>)
    requires ValidClusterRules(a) && ValidClusterRules(b)
    ensures Bag(ClusterText, a) == Bag(ClusterText, b) <==> Bag(ClusterCanonOf, a) == Bag(ClusterCanonOf, b)
  {
    hide ClusterText, ClusterCanonOf;
    forall x, y | x in a + b && y in a + b ensures ClusterText(x) == ClusterText(y) <==> ClusterCanonOf(x) == ClusterCanonOf(y) {
      ClusterTextExact(x, y);
    }
    if Bag(ClusterText, a) == Bag(ClusterText, b) {
      AgreeingKeys(ClusterText, ClusterCanonOf, a, b);
    }
    if Bag(ClusterCanonOf, a) == Bag(ClusterCanonOf, b) {
      AgreeingKeys(ClusterCanonOf, ClusterText, a, b);
    }
  }

  /** The comparison of whole specs decides equality of headers, and of rules and pods up to
      reordering at both levels. */
  lemma ClusterSpecEqualExact(a: ClusterPolicyEndpoint, b: ClusterPolicyEndpoint)
    requires ValidClusterRules(a.ingress) && ValidClusterRules(a.egress) && ValidPods(a.pods)
    requires ValidClusterRules(b.ingress) && ValidClusterRules(b.egress) && ValidPods(b.pods)
    ensures ClusterSpecEqual(a, b) <==>
            && a.header == b.header
            && Bag(ClusterCanonOf, a.ingress) == Bag(ClusterCanonOf, b.ingress)
            && Bag(ClusterCanonOf, a.egress) == Bag(ClusterCanonOf, b.egress)
            && multiset(a.pods) == multiset(b.pods)
  {
    hide ClusterText, ClusterCanonOf, Equality.PodText, ValidClusterRule, ValidPod, Bag;
    ClusterRulesEqualExact(a.ingress, b.ingress);
    ClusterRulesEqualExact(a.egress, b.egress);
    Equality.PodsEqualExact(a.pods, b.pods);
  }

  lemma SameClusterCanonAdmits(a: ClusterEndpointInfo, b: ClusterEndpointInfo, n: Network, f: Flow)
    requires ClusterCanonOf(a) == ClusterCanonOf(b)
    ensures a.action == b.action && (ClusterAdmits(n, a, f) <==> ClusterAdmits(n, b, f))
  {
    assert forall p :: p in a.ports <==> p in multiset(a.ports);
    assert forall p :: p in b.ports <==> p in multiset(b.ports);
    assert |multiset(a.ports)| == |a.ports| && |multiset(b.ports)| == |b.ports|;
  }

  /** Cluster rule lists that compare equal apply the same actions to the same flows. */
  lemma EqualClusterRulesApplySame(a: seq<ClusterEndpointInfo>, b: seq<ClusterEndpointInfo>, n: Network, action: string, f: Flow)
    requires ValidClusterRules(a) && ValidClusterRules(b) && Bag(ClusterText, a) == Bag(ClusterText, b)
    requires Applies(n, a, action, f)
    ensures Applies(n, b, action, f)
  {
    ClusterRulesEqualExact(a, b);
    hide ClusterAdmits, ClusterCanonOf, ClusterText, ValidClusterRule;
    var e :| e in a && e.action == action && ClusterAdmits(n, e, f);
    BagMembers(ClusterCanonOf, a, ClusterCanonOf(e));
    BagMembers(ClusterCanonOf, b, ClusterCanonOf(e));
    var x :| x in b && ClusterCanonOf(x) == ClusterCanonOf(e);
    SameClusterCanonAdmits(e, x, n, f);
  }
}
