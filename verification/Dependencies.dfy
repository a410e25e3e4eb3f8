/** The dependency index is complete: a change that alters what a policy resolves to always
    refers that policy. */
module Dependencies {
  import opened Basics
  import opened Flattening
  import opened Labels
  import opened PolicyInfo
  import opened Kubernetes
  import opened Endpoints
  import opened EgressEndpoints
  import opened References

  // ---------------------------------------------------------------- changes of one object

  /** One object of a listing is created, updated or deleted. */
  datatype Change<T> = Change(head: seq<T>, was: Option<T>, becomes: Option<T>, tail: seq<T>)

  function AsSeq<T>(x: Option<T>): seq<T> { if x.None? then [] else [x.value] }

  function Before<T>(ch: Change<T>): seq<T> { ch.head + AsSeq(ch.was) + ch.tail }

  function After<T>(ch: Change<T>): seq<T> { ch.head + AsSeq(ch.becomes) + ch.tail }

  function Versions<T>(ch: Change<T>): seq<T> { AsSeq(ch.was) + AsSeq(ch.becomes) }

  predicate Happens<T>(ch: Change<T>) { ch.was.Some? || ch.becomes.Some? }

  /** The event handlers pass the new object, or the deleted one. */
  function EventObject<T>(ch: Change<T>): T
    requires Happens(ch)
  {
    if ch.becomes.Some? then ch.becomes.value else ch.was.value
  }

  /** The former version is passed for updates only. */
  function EventFormer<T>(ch: Change<T>): Option<T> {
    if ch.becomes.Some? then ch.was else None
  }

  lemma FrameChange<T, B>(f: T -> seq<B>, ch: Change<T>)
    requires forall z | z in Versions(ch) :: f(z) == []
    ensures FlatMap(f, Before(ch)) == FlatMap(f, After(ch))
  {
    hide FlatMap;
    FlatMapFrame(f, ch.head, AsSeq(ch.was), AsSeq(ch.becomes), ch.tail);
  }

  // ---------------------------------------------------------------- what the index relies on

  ghost predicate UniqueNamespaces(c: Cluster) {
    forall a, b | a in c.namespaces && b in c.namespaces :: a.name == b.name ==> a == b
  }

  /** The tracker holds exactly the policies with a namespace selector. */
  ghost predicate TracksNamespaces(c: Cluster, tracked: set<NamespacedName>) {
    forall p | p in c.policies :: NameOf(p) in tracked <==> ContainsNamespaceReference(p)
  }

  ghost predicate TracksEgress(c: Cluster, egress: set<NamespacedName>) {
    forall p | p in c.policies :: NameOf(p) in egress <==> ContainsEgressRules(p)
  }

  /** Every peer has a selector or an IP block. */
  predicate ProperPeer(peer: Peer) {
    peer.podSelector.Some? || peer.namespaceSelector.Some? || peer.ipBlock.Some?
  }

  predicate ProperPeers(rules: seq<Rule>) {
    forall rule | rule in rules :: forall peer | peer in PeersOf(rule) :: ProperPeer(peer)
  }

  /** Pod selectors cannot stop matching when labels are added. */
  ghost predicate MonotonePeers(rules: seq<Rule>) {
    forall rule | rule in rules :: forall peer | peer in PeersOf(rule) ::
      peer.podSelector.Some? ==> Monotone(peer.podSelector.value)
  }

  // ---------------------------------------------------------------- lifting equality of peers

  /** Two clusters give every peer of the rules the same endpoints, whatever the ports. */
  ghost predicate SameIngressPeers(c: Cluster, d: Cluster, policyNamespace: string, rules: seq<Rule>) {
    forall rule, peer, ports | rule in rules && peer in PeersOf(rule) ::
      IngressPeer(c, policyNamespace, ports)(peer) == IngressPeer(d, policyNamespace, ports)(peer)
  }

  /** The same for egress, with the ports of the peer's rule. */
  ghost predicate SameEgressPeers(c: Cluster, d: Cluster, policyNamespace: string, rules: seq<Rule>) {
    forall rule, peer | rule in rules && peer in PeersOf(rule) ::
      EgressPeer(c, policyNamespace, rule.ports)(peer) == EgressPeer(d, policyNamespace, rule.ports)(peer)
  }

  lemma LiftIngressRule(c: Cluster, d: Cluster, policyNamespace: string, rules: seq<Rule>, rule: Rule, ports: seq<Port>)
    requires SameIngressPeers(c, d, policyNamespace, rules) && rule in rules
    ensures IngressRule(c, policyNamespace, rule, ports) == IngressRule(d, policyNamespace, rule, ports)
  {
    hide FlatMap, IngressPeer;
    if rule.peers.Some? {
      assert PeersOf(rule) == rule.peers.value;
      FlatMapAgree(IngressPeer(c, policyNamespace, ports), IngressPeer(d, policyNamespace, ports), rule.peers.value);
    }
  }

  lemma {:induction false} LiftIngress(c: Cluster, d: Cluster, policy: NetworkPolicy, ports: seq<seq<Port>>, n: nat)
    requires SameIngressPeers(c, d, policy.namespace, policy.ingress) && n <= |policy.ingress| == |ports|
    ensures IngressRules(c, policy, ports, n) == IngressRules(d, policy, ports, n)
  {
    hide IngressRule, SameIngressPeers;
    if n > 0 {
      LiftIngress(c, d, policy, ports, n - 1);
      LiftIngressRule(c, d, policy.namespace, policy.ingress, policy.ingress[n - 1], ports[n - 1]);
    }
  }

  lemma LiftEgressRule(c: Cluster, d: Cluster, policyNamespace: string, rules: seq<Rule>, rule: Rule)
    requires SameEgressPeers(c, d, policyNamespace, rules) && rule in rules
    ensures EgressRule(c, policyNamespace)(rule) == EgressRule(d, policyNamespace)(rule)
  {
    hide FlatMap, EgressPeer, AllowAllEgress;
    if rule.peers.Some? {
      assert PeersOf(rule) == rule.peers.value;
      FlatMapAgree(EgressPeer(c, policyNamespace, rule.ports), EgressPeer(d, policyNamespace, rule.ports), rule.peers.value);
    }
  }

  lemma LiftEgress(c: Cluster, d: Cluster, policy: NetworkPolicy)
    requires SameEgressPeers(c, d, policy.namespace, policy.egress)
    ensures EgressRules(c, policy) == EgressRules(d, policy)
  {
    hide FlatMap, EgressRule, SameEgressPeers;
    forall rule | rule in policy.egress
      ensures EgressRule(c, policy.namespace)(rule) == EgressRule(d, policy.namespace)(rule)
    {
      LiftEgressRule(c, d, policy.namespace, policy.egress, rule);
    }
    FlatMapAgree(EgressRule(c, policy.namespace), EgressRule(d, policy.namespace), policy.egress);
  }

  /** The policy's own pods and their ports are the same. */
  ghost predicate SameDestinations(c: Cluster, d: Cluster, policy: NetworkPolicy) {
    && SelectedPods(c, policy) == SelectedPods(d, policy)
    && forall ports :: FlatMap(DestinationPorts(policy, ports), c.pods) == FlatMap(DestinationPorts(policy, ports), d.pods)
  }

  lemma LiftPorts(c: Cluster, d: Cluster, policy: NetworkPolicy, ports: seq<seq<Port>>)
    requires SameDestinations(c, d, policy) && ResolvedPorts(c, policy, ports)
    ensures ResolvedPorts(d, policy, ports)
  {
    hide FlatMap, DedupedFrom, HasNamedPort, SelectedPods, DestinationPorts;
    forall i | 0 <= i < |ports| ensures IngressPorts(d, policy, policy.ingress[i].ports, ports[i]) {
      assert IngressPorts(c, policy, policy.ingress[i].ports, ports[i]);
    }
  }

  lemma LiftResolution(c: Cluster, d: Cluster, policy: NetworkPolicy, r: Resolved)
    requires SameDestinations(c, d, policy)
    requires SameIngressPeers(c, d, policy.namespace, policy.ingress)
    requires SameEgressPeers(c, d, policy.namespace, policy.egress)
    requires ResolvesTo(c, policy, r)
    ensures ResolvesTo(d, policy, r)
  {
    LiftEgress(c, d, policy);
    hide ResolvedPorts, IngressRules, EgressRules, SelectedPods, FlatMap, SameIngressPeers, SameEgressPeers;
    var ports :| ResolvedPorts(c, policy, ports) && r.ingress == IngressRules(c, policy, ports, |policy.ingress|);
    LiftPorts(c, d, policy, ports);
    PortCount(c, policy, ports);
    LiftIngress(c, d, policy, ports, |policy.ingress|);
  }

  lemma PortCount(c: Cluster, policy: NetworkPolicy, ports: seq<seq<Port>>)
    requires ResolvedPorts(c, policy, ports)
    ensures |ports| == |policy.ingress|
  {
  }

  // ---------------------------------------------------------------- pods

  ghost predicate SamePod(ch: Change<Pod>) {
    && Happens(ch)
    && forall y, z | y in Versions(ch) && z in Versions(ch) :: y.namespace == z.namespace && y.name == z.name
  }

  lemma SamePodHappens(ch: Change<Pod>)
    requires SamePod(ch)
    ensures Happens(ch)
  {
  }

  /** The pod is invisible to the policy: neither selected by it nor by any of its peers. */
  ghost predicate Unrelated(c: Cluster, policy: NetworkPolicy, pod: Pod) {
    && !AppliesTo(policy, pod)
    && !IsPodReferredIn(c, pod, policy.namespace, policy.ingress)
    && !IsPodReferredIn(c, pod, policy.namespace, policy.egress)
  }

  lemma MatchAcrossNamespaces(c: Cluster, pod: Pod, policy: NetworkPolicy)
    requires IsPodReferredOnIngressEgress(c, pod, policy) && pod.namespace != policy.namespace
    ensures ContainsNamespaceReference(policy)
  {
  }

  /** Not referred means invisible in both versions. */
  lemma NotReferredUnrelated(
    c: Cluster, tracked: set<NamespacedName>, ch: Change<Pod>, policy: NetworkPolicy, z: Pod)
    requires SamePod(ch) && policy in c.policies && TracksNamespaces(c, tracked)
    requires !ReferredForPod(c, tracked, EventObject(ch), EventFormer(ch), policy)
    requires z in Versions(ch)
    ensures Unrelated(c, policy, z)
  {
    hide Matches, IsPodReferredIn, ContainsNamespaceReference;
    assert EventObject(ch) in Versions(ch);
    assert z == EventObject(ch) || (EventFormer(ch).Some? && z == EventFormer(ch).value);
    if IsPodReferredOnIngressEgress(c, z, policy) {
      if z.namespace != policy.namespace {
        MatchAcrossNamespaces(c, z, policy);
      }
    }
  }

  lemma ListedNamespace(c: Cluster, selector: LabelSelector, namespace: string)
    requires UniqueNamespaces(c) && namespace in FlatMap(NamespaceNamed(selector), c.namespaces)
    ensures GetNamespace(c, namespace).Some? && Matches(selector, GetNamespace(c, namespace).value.labels)
  {
    hide FlatMap, Matches, FirstSome;
    FlatMapMembers(NamespaceNamed(selector), c.namespaces, namespace);
    var n :| n in c.namespaces && namespace in NamespaceNamed(selector)(n);
    assert n.name == namespace;
    assert NamespaceCalled(namespace)(n).Some?;
    var found := GetNamespace(c, namespace);
    var m :| m in c.namespaces && NamespaceCalled(namespace)(m) == found;
  }

  /** What a peer's selection visits, the index matches. */
  lemma VisitedIsMatched(c: Cluster, policyNamespace: string, peer: Peer, namespace: string, pod: Pod)
    requires UniqueNamespaces(c) && ProperPeer(peer) && peer.ipBlock.None?
    requires namespace in PeerNamespaces(c, policyNamespace, peer) && Listed(namespace, peer.podSelector, pod)
    ensures IsPodLabelMatchPeer(c, pod, policyNamespace, peer)
  {
    hide Matches, FlatMap, GetNamespace;
    if peer.namespaceSelector.Some? {
      ListedNamespace(c, peer.namespaceSelector.value, namespace);
    }
  }

  lemma NotVisited(
    c: Cluster, policyNamespace: string, rules: seq<Rule>, rule: Rule, peer: Peer, namespace: string, pod: Pod)
    requires UniqueNamespaces(c) && ProperPeers(rules) && rule in rules && peer in PeersOf(rule) && peer.ipBlock.None?
    requires !IsPodReferredIn(c, pod, policyNamespace, rules) && namespace in PeerNamespaces(c, policyNamespace, peer)
    ensures !Listed(namespace, peer.podSelector, pod)
  {
    hide Listed, IsPodLabelMatchPeer, PeerNamespaces;
    if Listed(namespace, peer.podSelector, pod) {
      VisitedIsMatched(c, policyNamespace, peer, namespace, pod);
    }
  }

  /** Monotone selectors see every pod behind a service that they see. */
  lemma NotBacking(namespace: string, selector: Option<LabelSelector>, svc: Service, pod: Pod)
    requires selector.Some? ==> Monotone(selector.value)
    requires svc.namespace == namespace && Selects(selector, SelectorSet(svc)) && !Listed(namespace, selector, pod)
    ensures !Backs(svc, pod)
  {
    hide Matches, Subset, Monotone;
    if Backs(svc, pod) && selector.Some? {
      MonotoneMatches(selector.value, SelectorSet(svc), pod.labels);
    }
  }

  /** The cluster after the pod changed. */
  function WithPods(c: Cluster, ch: Change<Pod>): Cluster { c.(pods := After(ch)) }

  lemma ServicePodFrame(
    c: Cluster, ch: Change<Pod>, namespace: string, selector: Option<LabelSelector>, ports: seq<PolicyPort>, svc: Service)
    requires c.pods == Before(ch) && (selector.Some? ==> Monotone(selector.value))
    requires forall z | z in Versions(ch) :: !Listed(namespace, selector, z)
    ensures ServiceEndpoint(c, namespace, selector, ports)(svc) ==
            ServiceEndpoint(WithPods(c, ch), namespace, selector, ports)(svc)
  {
    hide Monotone, Listed, Backs, ClusterIPPorts, IsServiceHeadless, Selects, SelectorSet, FlatMap;
    if svc.namespace == namespace && Selects(selector, SelectorSet(svc)) {
      forall z | z in Versions(ch) ensures BackingPod(svc)(z) == [] {
        NotBacking(namespace, selector, svc, z);
      }
      FrameChange(BackingPod(svc), ch);
    }
  }

  lemma PodFrameEgressNamespace(
    c: Cluster, ch: Change<Pod>, namespace: string, selector: Option<LabelSelector>, ports: seq<PolicyPort>)
    requires c.pods == Before(ch) && (selector.Some? ==> Monotone(selector.value))
    requires forall z | z in Versions(ch) :: !Listed(namespace, selector, z)
    ensures EgressNamespace(c, selector, ports)(namespace) == EgressNamespace(WithPods(c, ch), selector, ports)(namespace)
  {
    hide Monotone, Listed, FlatMap, ServiceEndpoint, IsPodNetworkReady;
    FrameChange(EgressPod(namespace, selector, ports), ch);
    forall svc | svc in c.services
      ensures ServiceEndpoint(c, namespace, selector, ports)(svc) ==
              ServiceEndpoint(WithPods(c, ch), namespace, selector, ports)(svc)
    {
      ServicePodFrame(c, ch, namespace, selector, ports, svc);
    }
    FlatMapAgree(ServiceEndpoint(c, namespace, selector, ports),
      ServiceEndpoint(WithPods(c, ch), namespace, selector, ports), c.services);
  }

  lemma PodFramePeer(c: Cluster, ch: Change<Pod>, policyNamespace: string, rules: seq<Rule>, rule: Rule, peer: Peer)
    requires c.pods == Before(ch) && UniqueNamespaces(c) && ProperPeers(rules) && rule in rules && peer in PeersOf(rule)
    requires forall z | z in Versions(ch) :: !IsPodReferredIn(c, z, policyNamespace, rules)
    ensures forall ports :: IngressPeer(c, policyNamespace, ports)(peer) ==
                            IngressPeer(WithPods(c, ch), policyNamespace, ports)(peer)
    ensures MonotonePeers(rules) ==> forall ports ::
              EgressPeer(c, policyNamespace, ports)(peer) == EgressPeer(WithPods(c, ch), policyNamespace, ports)(peer)
  {
    var d := WithPods(c, ch);
    var namespaces := PeerNamespaces(c, policyNamespace, peer);
    hide FlatMap, Listed, IsPodReferredIn, ProperPeers, UniqueNamespaces, MonotonePeers, IsPodNetworkReady, EgressNamespace;
    if peer.ipBlock.None? {
      forall namespace, z | namespace in namespaces && z in Versions(ch)
        ensures !Listed(namespace, peer.podSelector, z)
      {
        NotVisited(c, policyNamespace, rules, rule, peer, namespace, z);
      }
      forall ports
        ensures IngressPeer(c, policyNamespace, ports)(peer) == IngressPeer(d, policyNamespace, ports)(peer)
      {
        forall namespace | namespace in namespaces
          ensures IngressNamespace(c, peer.podSelector, ports)(namespace) == IngressNamespace(d, peer.podSelector, ports)(namespace)
        {
          FrameChange(IngressPod(namespace, peer.podSelector, ports), ch);
        }
        FlatMapAgree(IngressNamespace(c, peer.podSelector, ports), IngressNamespace(d, peer.podSelector, ports), namespaces);
      }
      if MonotonePeers(rules) {
        MonotonePeer(rules, rule, peer);
        forall ports
          ensures EgressPeer(c, policyNamespace, ports)(peer) == EgressPeer(d, policyNamespace, ports)(peer)
        {
          forall namespace | namespace in namespaces
            ensures EgressNamespace(c, peer.podSelector, ports)(namespace) == EgressNamespace(d, peer.podSelector, ports)(namespace)
          {
            PodFrameEgressNamespace(c, ch, namespace, peer.podSelector, ports);
          }
          FlatMapAgree(EgressNamespace(c, peer.podSelector, ports), EgressNamespace(d, peer.podSelector, ports), namespaces);
        }
      }
    }
  }

  lemma MonotonePeer(rules: seq<Rule>, rule: Rule, peer: Peer)
    requires MonotonePeers(rules) && rule in rules && peer in PeersOf(rule)
    ensures peer.podSelector.Some? ==> Monotone(peer.podSelector.value)
  {
  }

  lemma PodFrameDestinations(c: Cluster, ch: Change<Pod>, policy: NetworkPolicy)
    requires c.pods == Before(ch) && forall z | z in Versions(ch) :: !AppliesTo(policy, z)
    ensures SameDestinations(c, WithPods(c, ch), policy)
  {
    hide FlatMap, AppliesTo, IsPodNetworkReady, PodPorts;
    FrameChange(SelectedPod(policy), ch);
    forall ports ensures FlatMap(DestinationPorts(policy, ports), Before(ch)) == FlatMap(DestinationPorts(policy, ports), After(ch)) {
      FrameChange(DestinationPorts(policy, ports), ch);
    }
  }

  /** Undoing the change is a change too. */
  function Reversed<T>(ch: Change<T>): Change<T> { Change(ch.head, ch.becomes, ch.was, ch.tail) }

  lemma PodFrame(c: Cluster, ch: Change<Pod>, policy: NetworkPolicy, r: Resolved)
    requires c.pods == Before(ch) && UniqueNamespaces(c)
    requires ProperPeers(policy.ingress) && ProperPeers(policy.egress) && MonotonePeers(policy.egress)
    requires forall z | z in Versions(ch) :: Unrelated(c, policy, z)
    requires ResolvesTo(c, policy, r)
    ensures ResolvesTo(WithPods(c, ch), policy, r)
  {
    var d := WithPods(c, ch);
    hide ResolvesTo, UniqueNamespaces, ProperPeers, MonotonePeers, IngressPeer, EgressPeer, SameDestinations, AppliesTo, IsPodReferredIn;
    PodFrameDestinations(c, ch, policy);
    forall rule, peer | rule in policy.ingress && peer in PeersOf(rule) {
      PodFramePeer(c, ch, policy.namespace, policy.ingress, rule, peer);
    }
    forall rule, peer | rule in policy.egress && peer in PeersOf(rule) {
      PodFramePeer(c, ch, policy.namespace, policy.egress, rule, peer);
    }
    LiftResolution(c, d, policy, r);
  }

  lemma PodFrameEgress(c: Cluster, ch: Change<Pod>, policy: NetworkPolicy)
    requires c.pods == Before(ch) && UniqueNamespaces(c) && ProperPeers(policy.egress) && MonotonePeers(policy.egress)
    requires forall z | z in Versions(ch) :: Unrelated(c, policy, z)
    ensures EgressRules(c, policy) == EgressRules(WithPods(c, ch), policy)
  {
    hide UniqueNamespaces, ProperPeers, MonotonePeers, IngressPeer, EgressPeer, AppliesTo, IsPodReferredIn;
    forall rule, peer | rule in policy.egress && peer in PeersOf(rule) {
      PodFramePeer(c, ch, policy.namespace, policy.egress, rule, peer);
    }
    LiftEgress(c, WithPods(c, ch), policy);
  }

  /** Pod dependency completeness: when a pod is created, updated or deleted, every policy that
      is not among the referred ones resolves to exactly what it resolved to before. */
  lemma PodChangeComplete(c: Cluster, ch: Change<Pod>, tracked: set<NamespacedName>, policy: NetworkPolicy, r: Resolved)
    requires c.pods == Before(ch) && SamePod(ch) && UniqueNamespaces(c)
    requires policy in c.policies && TracksNamespaces(c, tracked)
    requires ProperPeers(policy.ingress) && ProperPeers(policy.egress) && MonotonePeers(policy.egress)
    requires !ReferredForPod(WithPods(c, ch), tracked, EventObject(ch), EventFormer(ch), policy)
    ensures ResolvesTo(c, policy, r) <==> ResolvesTo(WithPods(c, ch), policy, r)
  {
    var d := WithPods(c, ch);
    hide ResolvesTo, ProperPeers, MonotonePeers, ReferredForPod, Unrelated, SamePod;
    UnrelatedVersions(d, tracked, ch, policy);
    SameReferences(c, d, policy);
    if ResolvesTo(c, policy, r) {
      PodFrame(c, ch, policy, r);
    }
    if ResolvesTo(d, policy, r) {
      PodFrame(d, Reversed(ch), policy, r);
      assert WithPods(d, Reversed(ch)) == c;
    }
  }

  lemma UnrelatedVersions(c: Cluster, tracked: set<NamespacedName>, ch: Change<Pod>, policy: NetworkPolicy)
    requires SamePod(ch) && policy in c.policies && TracksNamespaces(c, tracked)
    requires !ReferredForPod(c, tracked, EventObject(ch), EventFormer(ch), policy)
    ensures forall z | z in Versions(ch) :: Unrelated(c, policy, z)
    ensures forall z :: z in Versions(Reversed(ch)) <==> z in Versions(ch)
  {
    hide ReferredForPod, Unrelated, SamePod, TracksNamespaces;
    forall z | z in Versions(ch) ensures Unrelated(c, policy, z) {
      NotReferredUnrelated(c, tracked, ch, policy, z);
    }
  }

  /** References depend on the namespaces only. */
  lemma SameReferences(c: Cluster, d: Cluster, policy: NetworkPolicy)
    requires c.namespaces == d.namespaces
    ensures forall z :: Unrelated(c, policy, z) <==> Unrelated(d, policy, z)
  {
    hide Matches, AppliesTo, FirstSome;
    forall z, peer ensures IsPodLabelMatchPeer(c, z, policy.namespace, peer) <==> IsPodLabelMatchPeer(d, z, policy.namespace, peer) {
      assert GetNamespace(c, z.namespace) == GetNamespace(d, z.namespace);
    }
    forall z ensures IsPodReferredIn(c, z, policy.namespace, policy.ingress) <==> IsPodReferredIn(d, z, policy.namespace, policy.ingress) {}
    forall z ensures IsPodReferredIn(c, z, policy.namespace, policy.egress) <==> IsPodReferredIn(d, z, policy.namespace, policy.egress) {}
  }
}
