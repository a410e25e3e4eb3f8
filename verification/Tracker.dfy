/** The policy tracker and the policy event handler that keeps it up to date. */
module Tracker {
  import opened Basics
  import opened Labels
  import opened Kubernetes
  import opened References
  import opened Dependencies
  import opened ClusterEndpoints

  // ---------------------------------------------------------------- policies of the three kinds

  datatype ApplicationPeer = ApplicationPeer(podSelector: Option<LabelSelector>, namespaceSelector: Option<LabelSelector>,
                                             ipBlock: Option<IPBlock>, domainNames: seq<string>)

  datatype ApplicationRule = ApplicationRule(peers: Option<seq<ApplicationPeer>>, ports: seq<PolicyPort>)

  datatype ApplicationNetworkPolicy = ApplicationNetworkPolicy(
    namespace: string, name: string, podSelector: LabelSelector, policyTypes: seq<string>,
    ingress: seq<Rule>, egress: seq<ApplicationRule>)

  datatype ClusterRule = ClusterRule(name: string, action: string)

  datatype ClusterNetworkPolicy = ClusterNetworkPolicy(
    name: string, tier: string, priority: int, subject: Subject, ingress: seq<ClusterRule>, egress: seq<ClusterRule>)

  datatype AnyPolicy =
    | NP(np: NetworkPolicy)
    | ANP(anp: ApplicationNetworkPolicy)
    | CNP(cnp: ClusterNetworkPolicy)

  datatype Kind = Network | Application | ClusterWide

  datatype Key = Key(kind: Kind, name: NamespacedName)

  function KeyOf(p: AnyPolicy): Key {
    match p
    case NP(q) => Key(Network, NamespacedName(q.namespace, q.name))
    case ANP(q) => Key(Application, NamespacedName(q.namespace, q.name))
    case CNP(q) => Key(ClusterWide, NamespacedName("", q.name))
  }

  function ApplicationPeersOf(rule: ApplicationRule): seq<ApplicationPeer> {
    match rule.peers case None => [] case Some(peers) => peers
  }

  predicate HasApplicationSelector(rules: seq<ApplicationRule>) {
    exists rule | rule in rules :: exists peer | peer in ApplicationPeersOf(rule) :: peer.namespaceSelector.Some?
  }

  predicate ContainsANPNamespaceReference(p: ApplicationNetworkPolicy) {
    HasNamespaceSelector(p.ingress) || HasApplicationSelector(p.egress)
  }

  /** Cluster-wide policies always count as referring to namespaces. */
  predicate RefersToNamespaces(p: AnyPolicy) {
    match p
    case NP(q) => ContainsNamespaceReference(q)
    case ANP(q) => ContainsANPNamespaceReference(q)
    case CNP(_) => true
  }

  predicate HasEgress(p: AnyPolicy) {
    match p
    case NP(q) => ContainsEgressRules(q)
    case ANP(q) => |q.egress| > 0
    case CNP(q) => |q.egress| > 0
  }

  // ---------------------------------------------------------------- the tracker

  datatype Index = Index(namespaced: set<NamespacedName>, egress: set<NamespacedName>)

  datatype Tracked = Tracked(np: Index, anp: Index, cnp: Index)

  function IndexOf(t: Tracked, kind: Kind): Index {
    match kind case Network => t.np case Application => t.anp case ClusterWide => t.cnp
  }

  function WithIndex(t: Tracked, kind: Kind, i: Index): Tracked {
    match kind case Network => t.(np := i) case Application => t.(anp := i) case ClusterWide => t.(cnp := i)
  }

  function Stored(s: set<NamespacedName>, n: NamespacedName, present: bool): set<NamespacedName> {
    if present then s + {n} else s - {n}
  }

  function Updated(t: Tracked, p: AnyPolicy): Tracked {
    var k := KeyOf(p);
    var i := IndexOf(t, k.kind);
    WithIndex(t, k.kind, Index(Stored(i.namespaced, k.name, RefersToNamespaces(p)), Stored(i.egress, k.name, HasEgress(p))))
  }

  function Removed(t: Tracked, p: AnyPolicy): Tracked {
    var k := KeyOf(p);
    var i := IndexOf(t, k.kind);
    WithIndex(t, k.kind, Index(i.namespaced - {k.name}, i.egress - {k.name}))
  }

  class PolicyTracker {
    var namespacedPolicies: set<NamespacedName>
    var egressRulesPolicies: set<NamespacedName>
    var namespacedANP: set<NamespacedName>
    var egressRulesANP: set<NamespacedName>
    var namespacedCNP: set<NamespacedName>
    var egressRulesCNP: set<NamespacedName>

    ghost function State(): Tracked
      reads this
    {
      Tracked(Index(namespacedPolicies, egressRulesPolicies), Index(namespacedANP, egressRulesANP),
        Index(namespacedCNP, egressRulesCNP))
    }

    constructor ()
      ensures State() == NothingTracked()
    {
      namespacedPolicies, egressRulesPolicies := {}, {};
      namespacedANP, egressRulesANP := {}, {};
      namespacedCNP, egressRulesCNP := {}, {};
    }

    method UpdatePolicy(policy: NetworkPolicy)
      modifies this
      ensures State() == Updated(old(State()), NP(policy))
    {
      var n := NameOf(policy);
      if ContainsNamespaceReference(policy) {
        namespacedPolicies := namespacedPolicies + {n};
      } else {
        namespacedPolicies := namespacedPolicies - {n};
      }
      if ContainsEgressRules(policy) {
        egressRulesPolicies := egressRulesPolicies + {n};
      } else {
        egressRulesPolicies := egressRulesPolicies - {n};
      }
    }

    method RemovePolicy(policy: NetworkPolicy)
      modifies this
      ensures State() == Removed(old(State()), NP(policy))
    {
      namespacedPolicies := namespacedPolicies - {NameOf(policy)};
      egressRulesPolicies := egressRulesPolicies - {NameOf(policy)};
    }

    method UpdateANP(policy: ApplicationNetworkPolicy)
      modifies this
      ensures State() == Updated(old(State()), ANP(policy))
    {
      var n := NamespacedName(policy.namespace, policy.name);
      if ContainsANPNamespaceReference(policy) {
        namespacedANP := namespacedANP + {n};
      } else {
        namespacedANP := namespacedANP - {n};
      }
      if |policy.egress| > 0 {
        egressRulesANP := egressRulesANP + {n};
      } else {
        egressRulesANP := egressRulesANP - {n};
      }
    }

    method RemoveANP(policy: ApplicationNetworkPolicy)
      modifies this
      ensures State() == Removed(old(State()), ANP(policy))
    {
      var n := NamespacedName(policy.namespace, policy.name);
      namespacedANP, egressRulesANP := namespacedANP - {n}, egressRulesANP - {n};
    }

    method UpdateCNP(policy: ClusterNetworkPolicy)
      modifies this
      ensures State() == Updated(old(State()), CNP(policy))
    {
      var n := NamespacedName("", policy.name);
      namespacedCNP := namespacedCNP + {n};
      if |policy.egress| > 0 {
        egressRulesCNP := egressRulesCNP + {n};
      } else {
        egressRulesCNP := egressRulesCNP - {n};
      }
    }

    method RemoveCNP(policy: ClusterNetworkPolicy)
      modifies this
      ensures State() == Removed(old(State()), CNP(policy))
    {
      var n := NamespacedName("", policy.name);
      namespacedCNP, egressRulesCNP := namespacedCNP - {n}, egressRulesCNP - {n};
    }

    method UpdateGenericPolicy(policy: AnyPolicy)
      modifies this
      ensures State() == Updated(old(State()), policy)
    {
      match policy
      case NP(p) => UpdatePolicy(p);
      case ANP(p) => UpdateANP(p);
      case CNP(p) => UpdateCNP(p);
    }

    method RemoveGenericPolicy(policy: AnyPolicy)
      modifies this
      ensures State() == Removed(old(State()), policy)
    {
      match policy
      case NP(p) => RemovePolicy(p);
      case ANP(p) => RemoveANP(p);
      case CNP(p) => RemoveCNP(p);
    }
  }

  function NothingTracked(): Tracked { Tracked(Index({}, {}), Index({}, {}), Index({}, {})) }

  // ---------------------------------------------------------------- events

  /** A policy as it appears in an event. */
  datatype Versioned = Versioned(policy: AnyPolicy, resourceVersion: string, deleting: bool)

  datatype Event =
    | Create(created: Versioned)
    | Update(former: Versioned, latest: Versioned)
    | Delete(deleted: Versioned)
    | Generic(current: Versioned)

  /** Semantic equality does not tell an absent peer list from an empty one. */
  function Normal(rule: Rule): Rule { rule.(peers := Some(PeersOf(rule))) }

  function NormalApplication(rule: ApplicationRule): ApplicationRule { rule.(peers := Some(ApplicationPeersOf(rule))) }

  predicate SameSpec(a: AnyPolicy, b: AnyPolicy) {
    match (a, b)
    case (NP(p), NP(q)) =>
      && p.podSelector == q.podSelector && p.policyTypes == q.policyTypes
      && Map(Normal, p.ingress) == Map(Normal, q.ingress) && Map(Normal, p.egress) == Map(Normal, q.egress)
    case (ANP(p), ANP(q)) =>
      && p.podSelector == q.podSelector && p.policyTypes == q.policyTypes
      && Map(Normal, p.ingress) == Map(Normal, q.ingress)
      && Map(NormalApplication, p.egress) == Map(NormalApplication, q.egress)
    case (CNP(p), CNP(q)) =>
      && p.tier == q.tier && p.priority == q.priority && p.subject == q.subject
      && p.ingress == q.ingress && p.egress == q.egress
    case _ => false
  }

  /** The short cut of Update: a new version of an unchanged spec is not handled. */
  predicate Unchanged(former: Versioned, latest: Versioned) {
    && latest.resourceVersion != former.resourceVersion
    && SameSpec(former.policy, latest.policy)
    && former.deleting == latest.deleting
  }

  predicate NoPeers<T>(peers: Option<seq<T>>) { peers.None? || peers == Some([]) }

  /** The rules are the same, absent and empty peer lists aside. */
  predicate RulesAgree(a: seq<Rule>, b: seq<Rule>) {
    |a| == |b| && forall i :: 0 <= i < |a| ==>
      a[i].ports == b[i].ports && (a[i].peers == b[i].peers || (NoPeers(a[i].peers) && NoPeers(b[i].peers)))
  }

  predicate ApplicationRulesAgree(a: seq<ApplicationRule>, b: seq<ApplicationRule>) {
    |a| == |b| && forall i :: 0 <= i < |a| ==>
      a[i].ports == b[i].ports && (a[i].peers == b[i].peers || (NoPeers(a[i].peers) && NoPeers(b[i].peers)))
  }

  /** The policies are the same apart from their names, absent and empty peer lists aside. */
  predicate SpecsAgree(a: AnyPolicy, b: AnyPolicy) {
    match a
    case NP(p) =>
      b.NP? && b.np.(namespace := p.namespace, name := p.name, ingress := p.ingress, egress := p.egress) == p
      && RulesAgree(p.ingress, b.np.ingress) && RulesAgree(p.egress, b.np.egress)
    case ANP(p) =>
      b.ANP? && b.anp.(namespace := p.namespace, name := p.name, ingress := p.ingress, egress := p.egress) == p
      && RulesAgree(p.ingress, b.anp.ingress) && ApplicationRulesAgree(p.egress, b.anp.egress)
    case CNP(p) => b.CNP? && b.cnp.(name := p.name) == p
  }

  /** What the handler may skip: a new version in which neither the spec nor the deletion changed. */
  predicate Skippable(former: Versioned, latest: Versioned) {
    && former.resourceVersion != latest.resourceVersion && former.deleting == latest.deleting
    && SpecsAgree(former.policy, latest.policy)
  }

  lemma NormalAgree(a: seq<Rule>, b: seq<Rule>)
    ensures Map(Normal, a) == Map(Normal, b) <==> RulesAgree(a, b)
  {
    assert |a| == |Map(Normal, a)| && |b| == |Map(Normal, b)|;
    if Map(Normal, a) == Map(Normal, b) {
      forall i | 0 <= i < |a| ensures Normal(a[i]) == Normal(b[i]) {
        assert Map(Normal, a)[i] == Map(Normal, b)[i];
      }
    }
  }

  lemma NormalApplicationAgree(a: seq<ApplicationRule>, b: seq<ApplicationRule>)
    ensures Map(NormalApplication, a) == Map(NormalApplication, b) <==> ApplicationRulesAgree(a, b)
  {
    assert |a| == |Map(NormalApplication, a)| && |b| == |Map(NormalApplication, b)|;
    if Map(NormalApplication, a) == Map(NormalApplication, b) {
      forall i | 0 <= i < |a| ensures NormalApplication(a[i]) == NormalApplication(b[i]) {
        assert Map(NormalApplication, a)[i] == Map(NormalApplication, b)[i];
      }
    }
  }

  /** The short cut skips exactly these updates. */
  lemma SkippableExactly(former: Versioned, latest: Versioned)
    ensures Unchanged(former, latest) <==> Skippable(former, latest)
  {
    match (former.policy, latest.policy)
    case (NP(p), NP(q)) =>
      NormalAgree(p.ingress, q.ingress);
      NormalAgree(p.egress, q.egress);
    case (ANP(p), ANP(q)) =>
      NormalAgree(p.ingress, q.ingress);
      NormalApplicationAgree(p.egress, q.egress);
    case _ =>
  }

  function Step(t: Tracked, e: Event): Tracked {
    match e
    case Create(o) => Updated(t, o.policy)
    case Update(o, n) => if Unchanged(o, n) then t else Updated(t, n.policy)
    case Delete(o) => Removed(t, o.policy)
    case Generic(o) => Updated(t, o.policy)
  }

  datatype Request = Request(name: NamespacedName, delay: nat)

  /** The name is that of the policy; a cluster-wide policy has no namespace. */
  predicate Named(p: AnyPolicy, n: NamespacedName) {
    match p
    case NP(q) => n.namespace == q.namespace && n.name == q.name
    case ANP(q) => n.namespace == q.namespace && n.name == q.name
    case CNP(q) => n.namespace == "" && n.name == q.name
  }

  /** The queue grew by one request for the policy. */
  ghost predicate OneMore(before: seq<Request>, after: seq<Request>, p: AnyPolicy, delay: nat) {
    && |after| == |before| + 1 && after[..|before|] == before
    && Named(p, after[|before|].name) && after[|before|].delay == delay
  }

  /** What an event puts on the work queue. */
  function Requests(e: Event, batchPeriod: nat): seq<Request> {
    match e
    case Create(o) => [Request(KeyOf(o.policy).name, 0)]
    case Update(o, n) => if Unchanged(o, n) then [] else [Request(KeyOf(n.policy).name, 0)]
    case Delete(_) => []
    case Generic(o) => [Request(KeyOf(o.policy).name, batchPeriod)]
  }

  class PolicyEventHandler {
    const tracker: PolicyTracker
    const podUpdateBatchPeriod: nat
    var queue: seq<Request>

    constructor (t: PolicyTracker, period: nat)
      ensures tracker == t && podUpdateBatchPeriod == period && queue == []
    {
      tracker, podUpdateBatchPeriod, queue := t, period, [];
    }

    method EnqueueGenericPolicy(policy: AnyPolicy, addAfter: nat)
      modifies tracker, `queue
      ensures tracker.State() == Updated(old(tracker.State()), policy)
      ensures queue == old(queue) + [Request(KeyOf(policy).name, addAfter)]
    {
      tracker.UpdateGenericPolicy(policy);
      queue := queue + [Request(KeyOf(policy).name, addAfter)];
    }

    /** The handler's Create, Update, Delete and Generic. */
    method Handle(e: Event)
      modifies tracker, `queue
      ensures tracker.State() == Step(old(tracker.State()), e)
      ensures queue == old(queue) + Requests(e, podUpdateBatchPeriod)
      ensures e.Create? ==> OneMore(old(queue), queue, e.created.policy, 0)
      ensures e.Update? ==> if Skippable(e.former, e.latest) then queue == old(queue) else OneMore(old(queue), queue, e.latest.policy, 0)
      ensures e.Delete? ==> queue == old(queue)
      ensures e.Generic? ==> OneMore(old(queue), queue, e.current.policy, podUpdateBatchPeriod)
    {
      match e
      case Create(o) =>
        EnqueueGenericPolicy(o.policy, 0);
      case Update(o, n) =>
        SkippableExactly(o, n);
        if Unchanged(o, n) {
          return;
        }
        EnqueueGenericPolicy(n.policy, 0);
      case Delete(o) =>
        tracker.RemoveGenericPolicy(o.policy);
      case Generic(o) =>
        EnqueueGenericPolicy(o.policy, podUpdateBatchPeriod);
    }
  }

  // ---------------------------------------------------------------- runs

  /** The latest spec of every live policy. */
  type Live = map<Key, AnyPolicy>

  /** Watch events arrive in order and carry the version before; generic events carry the
      latest spec. */
  predicate Possible(live: Live, e: Event) {
    match e
    case Create(o) => true
    case Update(o, n) => KeyOf(n.policy) == KeyOf(o.policy) && KeyOf(o.policy) in live && live[KeyOf(o.policy)] == o.policy
    case Delete(o) => true
    case Generic(o) => KeyOf(o.policy) in live && live[KeyOf(o.policy)] == o.policy
  }

  function LiveAfter(live: Live, e: Event): Live {
    match e
    case Create(o) => live[KeyOf(o.policy) := o.policy]
    case Update(_, n) => live[KeyOf(n.policy) := n.policy]
    case Delete(o) => live - {KeyOf(o.policy)}
    case Generic(_) => live
  }

  function LiveAfterAll(live: Live, es: seq<Event>): Live {
    if es == [] then live else LiveAfter(LiveAfterAll(live, es[..|es| - 1]), es[|es| - 1])
  }

  predicate PossibleRun(live: Live, es: seq<Event>) {
    es == [] || (PossibleRun(live, es[..|es| - 1]) && Possible(LiveAfterAll(live, es[..|es| - 1]), es[|es| - 1]))
  }

  function StepAll(t: Tracked, es: seq<Event>): Tracked {
    if es == [] then t else Step(StepAll(t, es[..|es| - 1]), es[|es| - 1])
  }

  /** Each set holds exactly the live policies of its kind with the property it stands for. */
  ghost predicate Exact(t: Tracked, live: Live) {
    forall k: Key ::
      && (k.name in IndexOf(t, k.kind).namespaced <==> k in live && RefersToNamespaces(live[k]))
      && (k.name in IndexOf(t, k.kind).egress <==> k in live && HasEgress(live[k]))
  }

  /** Live policies are filed under their own keys. */
  ghost predicate WellFiled(live: Live) {
    forall k | k in live :: KeyOf(live[k]) == k
  }

  lemma NormalPeers(a: seq<Rule>, b: seq<Rule>)
    requires Map(Normal, a) == Map(Normal, b)
    ensures HasNamespaceSelector(a) == HasNamespaceSelector(b) && |a| == |b|
  {
    assert |a| == |Map(Normal, a)| && |b| == |Map(Normal, b)|;
    forall i | 0 <= i < |a| ensures PeersOf(a[i]) == PeersOf(b[i]) {
      assert Map(Normal, a)[i] == Normal(a[i]) && Map(Normal, b)[i] == Normal(b[i]);
    }
    SelectorCarries(a, b);
    SelectorCarries(b, a);
  }

  lemma SelectorCarries(a: seq<Rule>, b: seq<Rule>)
    requires |a| == |b| && forall i :: 0 <= i < |a| ==> PeersOf(a[i]) == PeersOf(b[i])
    ensures HasNamespaceSelector(a) ==> HasNamespaceSelector(b)
  {
    if HasNamespaceSelector(a) {
      var rule :| rule in a && exists peer | peer in PeersOf(rule) :: peer.namespaceSelector.Some?;
      var i :| 0 <= i < |a| && a[i] == rule;
      assert b[i] in b;
    }
  }

  lemma NormalApplicationPeers(a: seq<ApplicationRule>, b: seq<ApplicationRule>)
    requires Map(NormalApplication, a) == Map(NormalApplication, b)
    ensures |a| == |b| && (HasApplicationSelector(a) ==> HasApplicationSelector(b))
  {
    assert |a| == |Map(NormalApplication, a)| && |b| == |Map(NormalApplication, b)|;
    if HasApplicationSelector(a) {
      var rule :| rule in a && exists peer | peer in ApplicationPeersOf(rule) :: peer.namespaceSelector.Some?;
      var i :| 0 <= i < |a| && a[i] == rule;
      assert Map(NormalApplication, a)[i] == NormalApplication(a[i]) && Map(NormalApplication, b)[i] == NormalApplication(b[i]);
      assert b[i] in b && ApplicationPeersOf(b[i]) == ApplicationPeersOf(rule);
    }
  }

  /** The short cut cannot hide a change that the tracker would have recorded. */
  lemma ShortCutSafe(a: AnyPolicy, b: AnyPolicy)
    requires SameSpec(a, b)
    ensures RefersToNamespaces(a) == RefersToNamespaces(b) && HasEgress(a) == HasEgress(b)
  {
    match (a, b)
    case (NP(p), NP(q)) =>
      NormalPeers(p.ingress, q.ingress);
      NormalPeers(p.egress, q.egress);
    case (ANP(p), ANP(q)) =>
      NormalPeers(p.ingress, q.ingress);
      NormalApplicationPeers(p.egress, q.egress);
      NormalApplicationPeers(q.egress, p.egress);
    case (CNP(p), CNP(q)) =>
  }

  lemma UpdatedExact(t: Tracked, live: Live, p: AnyPolicy)
    requires Exact(t, live)
    ensures Exact(Updated(t, p), live[KeyOf(p) := p])
  {
    hide RefersToNamespaces, HasEgress;
  }

  lemma RemovedExact(t: Tracked, live: Live, p: AnyPolicy)
    requires Exact(t, live)
    ensures Exact(Removed(t, p), live - {KeyOf(p)})
  {
    hide RefersToNamespaces, HasEgress;
  }

  lemma RetypedExact(t: Tracked, live: Live, k: Key, p: AnyPolicy)
    requires Exact(t, live) && k in live
    requires RefersToNamespaces(live[k]) == RefersToNamespaces(p) && HasEgress(live[k]) == HasEgress(p)
    ensures Exact(t, live[k := p])
  {
    hide RefersToNamespaces, HasEgress, IndexOf;
  }

  lemma StepExact(t: Tracked, live: Live, e: Event)
    requires Exact(t, live) && WellFiled(live) && Possible(live, e)
    ensures Exact(Step(t, e), LiveAfter(live, e)) && WellFiled(LiveAfter(live, e))
  {
    hide Exact, RefersToNamespaces, HasEgress, Updated, Removed, SameSpec;
    match e
    case Create(o) => UpdatedExact(t, live, o.policy);
    case Update(o, n) =>
      if Unchanged(o, n) {
        ShortCutSafe(o.policy, n.policy);
        RetypedExact(t, live, KeyOf(n.policy), n.policy);
      } else {
        UpdatedExact(t, live, n.policy);
      }
    case Delete(o) => RemovedExact(t, live, o.policy);
    case Generic(o) =>
      UpdatedExact(t, live, o.policy);
      assert live[KeyOf(o.policy) := o.policy] == live;
  }

  /** Tracker exactness: after every sequence of events, each set is exactly the live policies
      whose latest spec has a namespace selector, respectively an egress rule. */
  lemma {:induction false} TrackerExact(es: seq<Event>)
    requires PossibleRun(map[], es)
    ensures Exact(StepAll(NothingTracked(), es), LiveAfterAll(map[], es)) && WellFiled(LiveAfterAll(map[], es))
  {
    hide Step, LiveAfter, Possible;
    if es != [] {
      var init, last := es[..|es| - 1], es[|es| - 1];
      TrackerExact(init);
      StepExact(StepAll(NothingTracked(), init), LiveAfterAll(map[], init), last);
    }
  }

  // ---------------------------------------------------------------- what the sets are

  ghost predicate IsLive(live: Live, p: AnyPolicy) { exists k :: k in live && live[k] == p }

  ghost predicate SomeNamespacePeer(rules: seq<Rule>) {
    exists rule, peer :: rule in rules && rule.peers.Some? && peer in rule.peers.value && peer.namespaceSelector.Some?
  }

  ghost predicate SomeApplicationNamespacePeer(rules: seq<ApplicationRule>) {
    exists rule, peer :: rule in rules && rule.peers.Some? && peer in rule.peers.value && peer.namespaceSelector.Some?
  }

  lemma SelectorInRules(rules: seq<Rule>)
    ensures HasNamespaceSelector(rules) <==> SomeNamespacePeer(rules)
  {
    if rule, peer :| rule in rules && rule.peers.Some? && peer in rule.peers.value && peer.namespaceSelector.Some? {
      assert peer in PeersOf(rule);
    }
  }

  lemma SelectorInApplicationRules(rules: seq<ApplicationRule>)
    ensures HasApplicationSelector(rules) <==> SomeApplicationNamespacePeer(rules)
  {
    if rule, peer :| rule in rules && rule.peers.Some? && peer in rule.peers.value && peer.namespaceSelector.Some? {
      assert peer in ApplicationPeersOf(rule);
    }
  }

  lemma LiveUnderItsKey(live: Live, p: AnyPolicy)
    requires WellFiled(live)
    ensures IsLive(live, p) <==> KeyOf(p) in live && live[KeyOf(p)] == p
  {
  }

  /** After every sequence of events: the names of the live NetworkPolicies with a namespace
      selector in an ingress or egress peer, and of those with an egress rule. */
  lemma NetworkPoliciesTracked(es: seq<Event>, n: NamespacedName)
    requires PossibleRun(map[], es)
    ensures var t, live := StepAll(NothingTracked(), es), LiveAfterAll(map[], es);
            && (n in t.np.namespaced <==> exists q: NetworkPolicy :: IsLive(live, NP(q)) && n == NamespacedName(q.namespace, q.name)
                                            && (SomeNamespacePeer(q.ingress) || SomeNamespacePeer(q.egress)))
            && (n in t.np.egress <==> exists q: NetworkPolicy :: IsLive(live, NP(q)) && n == NamespacedName(q.namespace, q.name) && q.egress != [])
  {
    hide PossibleRun, StepAll, LiveAfterAll, HasNamespaceSelector, SomeNamespacePeer, IsLive;
    TrackerExact(es);
    var t, live, k := StepAll(NothingTracked(), es), LiveAfterAll(map[], es), Key(Network, n);
    assert IndexOf(t, k.kind) == t.np;
    forall p { LiveUnderItsKey(live, p); }
    forall rules { SelectorInRules(rules); }
  }

  /** The same for ApplicationNetworkPolicies. */
  lemma ApplicationPoliciesTracked(es: seq<Event>, n: NamespacedName)
    requires PossibleRun(map[], es)
    ensures var t, live := StepAll(NothingTracked(), es), LiveAfterAll(map[], es);
            && (n in t.anp.namespaced <==> exists q: ApplicationNetworkPolicy :: IsLive(live, ANP(q)) && n == NamespacedName(q.namespace, q.name)
                                             && (SomeNamespacePeer(q.ingress) || SomeApplicationNamespacePeer(q.egress)))
            && (n in t.anp.egress <==> exists q: ApplicationNetworkPolicy :: IsLive(live, ANP(q)) && n == NamespacedName(q.namespace, q.name) && q.egress != [])
  {
    hide PossibleRun, StepAll, LiveAfterAll, HasNamespaceSelector, SomeNamespacePeer, HasApplicationSelector, SomeApplicationNamespacePeer, IsLive;
    TrackerExact(es);
    var t, live, k := StepAll(NothingTracked(), es), LiveAfterAll(map[], es), Key(Application, n);
    assert IndexOf(t, k.kind) == t.anp;
    forall p { LiveUnderItsKey(live, p); }
    forall rules { SelectorInRules(rules); }
    forall rules { SelectorInApplicationRules(rules); }
  }

  /** Every live ClusterNetworkPolicy counts as referring to namespaces. */
  lemma ClusterPoliciesTracked(es: seq<Event>, n: NamespacedName)
    requires PossibleRun(map[], es)
    ensures var t, live := StepAll(NothingTracked(), es), LiveAfterAll(map[], es);
            && (n in t.cnp.namespaced <==> exists q: ClusterNetworkPolicy :: IsLive(live, CNP(q)) && n == NamespacedName("", q.name))
            && (n in t.cnp.egress <==> exists q: ClusterNetworkPolicy :: IsLive(live, CNP(q)) && n == NamespacedName("", q.name) && q.egress != [])
  {
    hide PossibleRun, StepAll, LiveAfterAll, IsLive;
    TrackerExact(es);
    var t, live, k := StepAll(NothingTracked(), es), LiveAfterAll(map[], es), Key(ClusterWide, n);
    assert IndexOf(t, k.kind) == t.cnp;
    forall p { LiveUnderItsKey(live, p); }
  }

  /** The sets hold the name of the policy exactly when it has the property they stand for. */
  ghost predicate Recorded(t: Tracked, p: AnyPolicy) {
    match p
    case NP(q) =>
      var n := NamespacedName(q.namespace, q.name);
      && (n in t.np.namespaced <==> SomeNamespacePeer(q.ingress) || SomeNamespacePeer(q.egress))
      && (n in t.np.egress <==> q.egress != [])
    case ANP(q) =>
      var n := NamespacedName(q.namespace, q.name);
      && (n in t.anp.namespaced <==> SomeNamespacePeer(q.ingress) || SomeApplicationNamespacePeer(q.egress))
      && (n in t.anp.egress <==> q.egress != [])
    case CNP(q) =>
      var n := NamespacedName("", q.name);
      n in t.cnp.namespaced && (n in t.cnp.egress <==> q.egress != [])
  }

  /** No set of its kind holds the name of the policy. */
  predicate Forgotten(t: Tracked, p: AnyPolicy) {
    match p
    case NP(q) => NamespacedName(q.namespace, q.name) !in t.np.namespaced + t.np.egress
    case ANP(q) => NamespacedName(q.namespace, q.name) !in t.anp.namespaced + t.anp.egress
    case CNP(q) => NamespacedName("", q.name) !in t.cnp.namespaced + t.cnp.egress
  }

  predicate SameExcept(a: set<NamespacedName>, b: set<NamespacedName>, p: AnyPolicy) {
    forall n | n in a + b && !Named(p, n) :: n in a && n in b
  }

  /** The sets of the other kinds are the same, and those of its kind but for its name. */
  predicate OthersKept(t: Tracked, u: Tracked, p: AnyPolicy) {
    && (if p.NP? then SameExcept(t.np.namespaced, u.np.namespaced, p) && SameExcept(t.np.egress, u.np.egress, p) else t.np == u.np)
    && (if p.ANP? then SameExcept(t.anp.namespaced, u.anp.namespaced, p) && SameExcept(t.anp.egress, u.anp.egress, p) else t.anp == u.anp)
    && (if p.CNP? then SameExcept(t.cnp.namespaced, u.cnp.namespaced, p) && SameExcept(t.cnp.egress, u.cnp.egress, p) else t.cnp == u.cnp)
  }

  /** What one event does to the sets, whatever they were: a created, updated or current policy is
      recorded, a deleted one is forgotten, a skipped update changes nothing. */
  lemma EventRecorded(t: Tracked, e: Event)
    ensures e.Create? ==> Recorded(Step(t, e), e.created.policy) && OthersKept(t, Step(t, e), e.created.policy)
    ensures e.Update? ==> if Skippable(e.former, e.latest) then Step(t, e) == t
                          else Recorded(Step(t, e), e.latest.policy) && OthersKept(t, Step(t, e), e.latest.policy)
    ensures e.Delete? ==> Forgotten(Step(t, e), e.deleted.policy) && OthersKept(t, Step(t, e), e.deleted.policy)
    ensures e.Generic? ==> Recorded(Step(t, e), e.current.policy) && OthersKept(t, Step(t, e), e.current.policy)
  {
    hide Unchanged, Skippable, Recorded, OthersKept, Updated;
    match e
    case Create(o) => UpdatedRecords(t, o.policy);
    case Update(o, n) =>
      SkippableExactly(o, n);
      UpdatedRecords(t, n.policy);
    case Delete(o) => RemovedForgets(t, o.policy);
    case Generic(o) => UpdatedRecords(t, o.policy);
  }

  lemma UpdatedRecords(t: Tracked, p: AnyPolicy)
    ensures Recorded(Updated(t, p), p) && OthersKept(t, Updated(t, p), p)
  {
    hide HasNamespaceSelector, SomeNamespacePeer, HasApplicationSelector, SomeApplicationNamespacePeer;
    forall rules { SelectorInRules(rules); }
    forall rules { SelectorInApplicationRules(rules); }
  }

  lemma RemovedForgets(t: Tracked, p: AnyPolicy)
    ensures Forgotten(Removed(t, p), p) && OthersKept(t, Removed(t, p), p)
  {
  }

  /** An exact tracker is what the dependency index relies on. */
  lemma ExactTrackerServesIndex(t: Tracked, live: Live, c: Cluster)
    requires Exact(t, live)
    requires forall p | p in c.policies :: KeyOf(NP(p)) in live && live[KeyOf(NP(p))] == NP(p)
    ensures TracksNamespaces(c, t.np.namespaced) && TracksEgress(c, t.np.egress)
  {
    hide ContainsNamespaceReference, ContainsEgressRules;
    forall p | p in c.policies
      ensures NameOf(p) in t.np.namespaced <==> ContainsNamespaceReference(p)
      ensures NameOf(p) in t.np.egress <==> ContainsEgressRules(p)
    {
      var k := KeyOf(NP(p));
      assert IndexOf(t, k.kind) == t.np && k.name == NameOf(p);
    }
  }
}
