/** Completeness of the dependency index for changed namespaces. */
module NamespaceDependencies {
  import opened Basics
  import opened Flattening
  import opened Labels
  import opened PolicyInfo
  import opened Kubernetes
  import opened Endpoints
  import opened EgressEndpoints
  import opened References
  import opened Dependencies

  // ---------------------------------------------------------------- namespaces

  function WithNamespaces(c: Cluster, ch: Change<Namespace>): Cluster { c.(namespaces := After(ch)) }

  /** No namespace selector of the policy matches the namespace. */
  ghost predicate UnrelatedNamespace(policy: NetworkPolicy, ns: Namespace) {
    !IsNamespaceReferredIn(ns, policy.ingress) && !IsNamespaceReferredIn(ns, policy.egress)
  }

  lemma ReferredNamespaceTracked(ns: Namespace, policy: NetworkPolicy)
    requires IsNamespaceReferredInPolicy(ns, policy)
    ensures ContainsNamespaceReference(policy)
  {
    hide Matches;
  }

  lemma NamespacesUnrelated(c: Cluster, tracked: set<NamespacedName>, ch: Change<Namespace>, policy: NetworkPolicy)
    requires Happens(ch) && policy in c.policies && TracksNamespaces(c, tracked)
    requires !ReferredForNamespace(tracked, EventObject(ch), EventFormer(ch), policy)
    ensures forall z | z in Versions(ch) :: UnrelatedNamespace(policy, z)
  {
    hide IsNamespaceReferredIn, ContainsNamespaceReference;
    forall z | z in Versions(ch) ensures UnrelatedNamespace(policy, z) {
      if IsNamespaceReferredInPolicy(z, policy) {
        ReferredNamespaceTracked(z, policy);
      }
    }
  }

  /** Peers are resolved from the pods and services of the namespaces they name. */
  lemma SameNamespacesSamePeer(c: Cluster, d: Cluster, policyNamespace: string, peer: Peer)
    requires c.pods == d.pods && c.services == d.services
    requires PeerNamespaces(c, policyNamespace, peer) == PeerNamespaces(d, policyNamespace, peer)
    ensures forall ports :: IngressPeer(c, policyNamespace, ports)(peer) == IngressPeer(d, policyNamespace, ports)(peer)
    ensures forall ports :: EgressPeer(c, policyNamespace, ports)(peer) == EgressPeer(d, policyNamespace, ports)(peer)
  {
    var namespaces := PeerNamespaces(c, policyNamespace, peer);
    hide FlatMap, PeerNamespaces, ServiceEndpoint;
    forall ports ensures IngressPeer(c, policyNamespace, ports)(peer) == IngressPeer(d, policyNamespace, ports)(peer) {
      FlatMapAgree(IngressNamespace(c, peer.podSelector, ports), IngressNamespace(d, peer.podSelector, ports), namespaces);
    }
    forall ports ensures EgressPeer(c, policyNamespace, ports)(peer) == EgressPeer(d, policyNamespace, ports)(peer) {
      forall namespace ensures EgressNamespace(c, peer.podSelector, ports)(namespace) == EgressNamespace(d, peer.podSelector, ports)(namespace) {
        SameServices(c, d, namespace, peer.podSelector, ports);
      }
      FlatMapAgree(EgressNamespace(c, peer.podSelector, ports), EgressNamespace(d, peer.podSelector, ports), namespaces);
    }
  }

  lemma SameServices(c: Cluster, d: Cluster, namespace: string, selector: Option<LabelSelector>, ports: seq<PolicyPort>)
    requires c.pods == d.pods && c.services == d.services
    ensures FlatMap(ServiceEndpoint(c, namespace, selector, ports), c.services) ==
            FlatMap(ServiceEndpoint(d, namespace, selector, ports), d.services)
  {
    hide FlatMap, ClusterIPPorts, Selects, SelectorSet, IsServiceHeadless;
    FlatMapAgree(ServiceEndpoint(c, namespace, selector, ports), ServiceEndpoint(d, namespace, selector, ports), c.services);
  }

  lemma NamespaceFramePeer(c: Cluster, ch: Change<Namespace>, policyNamespace: string, rules: seq<Rule>, rule: Rule, peer: Peer)
    requires c.namespaces == Before(ch) && rule in rules && peer in PeersOf(rule)
    requires forall z | z in Versions(ch) :: !IsNamespaceReferredIn(z, rules)
    ensures forall ports :: IngressPeer(c, policyNamespace, ports)(peer) ==
                            IngressPeer(WithNamespaces(c, ch), policyNamespace, ports)(peer)
    ensures forall ports :: EgressPeer(c, policyNamespace, ports)(peer) ==
                            EgressPeer(WithNamespaces(c, ch), policyNamespace, ports)(peer)
  {
    hide Matches, FlatMap, IngressPeer, EgressPeer;
    if peer.namespaceSelector.Some? {
      FrameChange(NamespaceNamed(peer.namespaceSelector.value), ch);
    }
    SameNamespacesSamePeer(c, WithNamespaces(c, ch), policyNamespace, peer);
  }

  lemma NamespaceFrame(c: Cluster, ch: Change<Namespace>, policy: NetworkPolicy, r: Resolved)
    requires c.namespaces == Before(ch)
    requires forall z | z in Versions(ch) :: UnrelatedNamespace(policy, z)
    requires ResolvesTo(c, policy, r)
    ensures ResolvesTo(WithNamespaces(c, ch), policy, r)
  {
    var d := WithNamespaces(c, ch);
    hide ResolvesTo, IngressPeer, EgressPeer, IsNamespaceReferredIn, PeerNamespaces, FlatMap, DestinationPorts, SelectedPod;
    forall rule, peer | rule in policy.ingress && peer in PeersOf(rule) {
      NamespaceFramePeer(c, ch, policy.namespace, policy.ingress, rule, peer);
    }
    forall rule, peer | rule in policy.egress && peer in PeersOf(rule) {
      NamespaceFramePeer(c, ch, policy.namespace, policy.egress, rule, peer);
    }
    LiftResolution(c, d, policy, r);
  }

  /** Namespace dependency completeness: a policy that a created, updated or deleted namespace
      does not refer to resolves to what it resolved to before. */
  lemma NamespaceChangeComplete(c: Cluster, ch: Change<Namespace>, tracked: set<NamespacedName>, policy: NetworkPolicy, r: Resolved)
    requires c.namespaces == Before(ch) && Happens(ch)
    requires policy in c.policies && TracksNamespaces(c, tracked)
    requires !ReferredForNamespace(tracked, EventObject(ch), EventFormer(ch), policy)
    ensures ResolvesTo(c, policy, r) <==> ResolvesTo(WithNamespaces(c, ch), policy, r)
  {
    var d := WithNamespaces(c, ch);
    hide ResolvesTo, ReferredForNamespace, UnrelatedNamespace, TracksNamespaces;
    NamespacesUnrelated(c, tracked, ch, policy);
    if ResolvesTo(c, policy, r) {
      NamespaceFrame(c, ch, policy, r);
    }
    if ResolvesTo(d, policy, r) {
      NamespaceFrame(d, Reversed(ch), policy, r);
      assert WithNamespaces(d, Reversed(ch)) == c;
    }
  }
}
