/** The dependency index is precise: it refers a policy exactly when the policy or one of its
    peers selects a version of the changed object. */
module IndexExactness {
  import opened Basics
  import opened Flattening
  import opened Labels
  import opened Kubernetes
  import opened Endpoints
  import opened PolicyMeaning
  import opened Lookups
  import opened EgressEndpoints
  import opened IngressExactness
  import opened EgressExactness
  import opened References
  import opened Dependencies
  import opened NamespaceDependencies
  import opened ServiceDependencies
  import Tracker

  /** The peer selects by labels, with or without an IP block beside. */
  predicate Selecting(peer: Peer) { peer.podSelector.Some? || peer.namespaceSelector.Some? }

  lemma NamespaceFound(c: Cluster, name: string, selector: LabelSelector)
    requires UniqueNamespaces(c)
    ensures InSelectedNamespace(c, selector, name) <==>
            GetNamespace(c, name).Some? && Matches(selector, GetNamespace(c, name).value.labels)
  {
    hide Matches, FirstSome;
    var found := GetNamespace(c, name);
    if found.Some? {
      var n :| n in c.namespaces && NamespaceCalled(name)(n) == found;
    } else {
      assert forall n | n in c.namespaces :: NamespaceCalled(name)(n).None?;
    }
  }

  /** The pod matches the peer in the index exactly when the peer selects it. */
  lemma PodMatchExact(c: Cluster, policyNamespace: string, peer: Peer, pod: Pod)
    requires UniqueNamespaces(c)
    ensures IsPodLabelMatchPeer(c, pod, policyNamespace, peer) <==>
            Selecting(peer) && PeerSelects(c, policyNamespace, peer, pod)
  {
    hide Matches, GetNamespace, InSelectedNamespace, UniqueNamespaces;
    if peer.namespaceSelector.Some? {
      NamespaceFound(c, pod.namespace, peer.namespaceSelector.value);
    }
  }

  /** The service matches the peer in the index exactly when the peer selects it. */
  lemma ServiceMatchExact(c: Cluster, policyNamespace: string, peer: Peer, svc: Service)
    requires UniqueNamespaces(c) && svc.selector.Some? && Exposed(svc)
    ensures Selecting(peer) && IsServiceMatchLabelSelector(c, svc, policyNamespace, peer) <==>
            Selecting(peer) && PeerSelectsService(c, policyNamespace, peer, svc)
  {
    hide Matches, GetNamespace, InSelectedNamespace, UniqueNamespaces, Exposed;
    if peer.namespaceSelector.Some? {
      NamespaceFound(c, svc.namespace, peer.namespaceSelector.value);
    }
  }

  ghost predicate SomePeerSelects(c: Cluster, policyNamespace: string, rules: seq<Rule>, pod: Pod) {
    exists rule, peer :: rule in rules && peer in PeersOf(rule) && Selecting(peer) && PeerSelects(c, policyNamespace, peer, pod)
  }

  lemma RulesMatchExact(c: Cluster, policyNamespace: string, rules: seq<Rule>, pod: Pod)
    requires UniqueNamespaces(c)
    ensures IsPodReferredIn(c, pod, policyNamespace, rules) <==> SomePeerSelects(c, policyNamespace, rules, pod)
  {
    hide IsPodLabelMatchPeer, PeerSelects, UniqueNamespaces, Selecting;
    forall peer { PodMatchExact(c, policyNamespace, peer, pod); }
  }

  /** The policy applies to the pod, or one of its ingress or egress peers selects it. */
  ghost predicate Concerns(c: Cluster, policy: NetworkPolicy, pod: Pod) {
    || Governs(policy, pod)
    || SomePeerSelects(c, policy.namespace, policy.ingress, pod)
    || SomePeerSelects(c, policy.namespace, policy.egress, pod)
  }

  lemma UnrelatedExact(c: Cluster, policy: NetworkPolicy, pod: Pod)
    requires UniqueNamespaces(c)
    ensures Unrelated(c, policy, pod) <==> !Concerns(c, policy, pod)
  {
    PodWords();
    hide AppliesTo, Governs, SomePeerSelects, IsPodReferredIn, UniqueNamespaces;
    RulesMatchExact(c, policy.namespace, policy.ingress, pod);
    RulesMatchExact(c, policy.namespace, policy.egress, pod);
  }

  lemma RelatedIsReferred(c: Cluster, tracked: set<NamespacedName>, ch: Change<Pod>, policy: NetworkPolicy)
    requires SamePod(ch) && ReferredForPod(c, tracked, EventObject(ch), EventFormer(ch), policy)
    ensures exists z :: z in Versions(ch) && !Unrelated(c, policy, z)
  {
    hide Matches, IsPodReferredIn;
    var obj, former := EventObject(ch), EventFormer(ch);
    assert obj in Versions(ch) && (former.Some? ==> former.value in Versions(ch));
    if Unrelated(c, policy, obj) {
      assert former.Some? && !Unrelated(c, policy, former.value);
    }
  }

  /** A changed pod refers exactly the policies that concern one of its versions. */
  lemma ReferredForPodExact(c: Cluster, tracked: set<NamespacedName>, ch: Change<Pod>, policy: NetworkPolicy)
    requires SamePod(ch) && UniqueNamespaces(c) && policy in c.policies && TracksNamespaces(c, tracked)
    ensures ReferredForPod(c, tracked, EventObject(ch), EventFormer(ch), policy) <==>
            exists z :: z in Versions(ch) && Concerns(c, policy, z)
  {
    SamePodHappens(ch);
    hide ReferredForPod, SamePod, Unrelated, Concerns, UniqueNamespaces, TracksNamespaces, Versions;
    forall z { UnrelatedExact(c, policy, z); }
    if ReferredForPod(c, tracked, EventObject(ch), EventFormer(ch), policy) {
      RelatedIsReferred(c, tracked, ch, policy);
    } else {
      UnrelatedVersions(c, tracked, ch, policy);
    }
  }

  // ---------------------------------------------------------------- namespaces

  /** A namespace selector of the rules matches the labels of the namespace. */
  ghost predicate SomeSelectorMatches(rules: seq<Rule>, ns: Namespace) {
    exists rule, peer :: rule in rules && rule.peers.Some? && peer in rule.peers.value && PeerMatchesNamespace(peer, ns)
  }

  predicate PeerMatchesNamespace(peer: Peer, ns: Namespace) {
    peer.namespaceSelector.Some? && Matches(peer.namespaceSelector.value, ns.labels)
  }

  ghost predicate ConcernsNamespace(policy: NetworkPolicy, ns: Namespace) {
    SomeSelectorMatches(policy.ingress, ns) || SomeSelectorMatches(policy.egress, ns)
  }

  lemma NamespaceRulesExact(rules: seq<Rule>, ns: Namespace)
    ensures IsNamespaceReferredIn(ns, rules) <==> SomeSelectorMatches(rules, ns)
  {
    hide Matches;
    if rule, peer :| rule in rules && rule.peers.Some? && peer in rule.peers.value && PeerMatchesNamespace(peer, ns) {
      assert peer in PeersOf(rule) && IsNamespaceLabelMatchPeer(ns, peer);
    }
    if IsNamespaceReferredIn(ns, rules) {
      var rule :| rule in rules && exists peer | peer in PeersOf(rule) :: IsNamespaceLabelMatchPeer(ns, peer);
      var peer :| peer in PeersOf(rule) && IsNamespaceLabelMatchPeer(ns, peer);
      assert PeerMatchesNamespace(peer, ns);
    }
  }

  lemma ConcernedReferences(policy: NetworkPolicy, ns: Namespace)
    requires ConcernsNamespace(policy, ns)
    ensures ContainsNamespaceReference(policy)
  {
    hide Matches;
    forall rules: seq<Rule> | SomeSelectorMatches(rules, ns) ensures HasNamespaceSelector(rules) {
      var rule: Rule, peer: Peer :| rule in rules && rule.peers.Some? && peer in rule.peers.value && PeerMatchesNamespace(peer, ns);
      assert peer in PeersOf(rule);
    }
  }

  /** A changed namespace refers exactly the policies with a namespace selector that matches the
      labels of one of its versions. */
  lemma ReferredForNamespaceExact(c: Cluster, tracked: set<NamespacedName>, ch: Change<Namespace>, policy: NetworkPolicy)
    requires Happens(ch) && policy in c.policies && TracksNamespaces(c, tracked)
    ensures ReferredForNamespace(tracked, EventObject(ch), EventFormer(ch), policy) <==>
            exists z :: z in Versions(ch) && ConcernsNamespace(policy, z)
  {
    hide SomeSelectorMatches, IsNamespaceReferredIn, ContainsNamespaceReference;
    forall z ensures IsNamespaceReferredInPolicy(z, policy) <==> ConcernsNamespace(policy, z) {
      NamespaceRulesExact(policy.ingress, z);
      NamespaceRulesExact(policy.egress, z);
    }
    forall z | ConcernsNamespace(policy, z) ensures NameOf(policy) in tracked {
      ConcernedReferences(policy, z);
    }
    assert EventObject(ch) in Versions(ch);
  }

  // ---------------------------------------------------------------- services

  /** The peer selects the namespace of the service and the labels that the service selects by; a
      service that selects by none only when the peer asks for no labels. */
  ghost predicate PeerRefersService(c: Cluster, policyNamespace: string, peer: Peer, svc: Service) {
    && Selecting(peer)
    && (if peer.namespaceSelector.None? then svc.namespace == policyNamespace
        else InSelectedNamespace(c, peer.namespaceSelector.value, svc.namespace))
    && (peer.podSelector.Some? ==> svc.selector.Some? && Matches(peer.podSelector.value, svc.selector.value))
  }

  ghost predicate EgressRefersService(c: Cluster, policy: NetworkPolicy, svc: Service) {
    exists rule, peer :: rule in policy.egress && rule.peers.Some? && peer in rule.peers.value
      && PeerRefersService(c, policy.namespace, peer, svc)
  }

  lemma ServicePeerExact(c: Cluster, policyNamespace: string, peer: Peer, svc: Service)
    requires UniqueNamespaces(c)
    ensures Selecting(peer) && IsServiceMatchLabelSelector(c, svc, policyNamespace, peer) <==>
            PeerRefersService(c, policyNamespace, peer, svc)
  {
    hide Matches, GetNamespace, InSelectedNamespace, UniqueNamespaces;
    if peer.namespaceSelector.Some? {
      NamespaceFound(c, svc.namespace, peer.namespaceSelector.value);
    }
  }

  lemma ServiceEgressExact(c: Cluster, policy: NetworkPolicy, svc: Service)
    requires UniqueNamespaces(c)
    ensures IsServiceReferredOnEgress(c, svc, policy) <==> EgressRefersService(c, policy, svc)
  {
    hide IsServiceMatchLabelSelector, PeerRefersService, UniqueNamespaces;
    forall peer { ServicePeerExact(c, policy.namespace, peer, svc); }
  }

  /** With an exact tracker the policies that a service may refer are those with egress rules in its
      namespace, or with a namespace selector in any namespace. */
  lemma PotentialExact(c: Cluster, egress: set<NamespacedName>, tracked: set<NamespacedName>, policy: NetworkPolicy, svc: Service)
    requires policy in c.policies && TracksNamespaces(c, tracked) && TracksEgress(c, egress)
    ensures PotentialMatch(egress, tracked, svc, NameOf(policy)) <==>
            policy.egress != [] && (policy.namespace == svc.namespace
                                    || Tracker.SomeNamespacePeer(policy.ingress) || Tracker.SomeNamespacePeer(policy.egress))
  {
    hide HasNamespaceSelector, Tracker.SomeNamespacePeer;
    Tracker.SelectorInRules(policy.ingress);
    Tracker.SelectorInRules(policy.egress);
  }

  /** What refers a service has egress rules, and is in its namespace or has a namespace selector. */
  lemma RefersPotentially(c: Cluster, egress: set<NamespacedName>, tracked: set<NamespacedName>, policy: NetworkPolicy, svc: Service)
    requires policy in c.policies && TracksNamespaces(c, tracked) && TracksEgress(c, egress)
    requires EgressRefersService(c, policy, svc)
    ensures PotentialMatch(egress, tracked, svc, NameOf(policy))
  {
    hide Matches, InSelectedNamespace;
    var rule, peer :| rule in policy.egress && rule.peers.Some? && peer in rule.peers.value && PeerRefersService(c, policy.namespace, peer, svc);
    assert peer in PeersOf(rule);
    if peer.namespaceSelector.Some? {
      assert HasNamespaceSelector(policy.egress);
    }
  }

  /** A changed service refers exactly the policies with an egress peer that refers to one of its
      versions, provided that it has a ClusterIP afterwards. */
  lemma ReferredForServiceExact(
    c: Cluster, egress: set<NamespacedName>, tracked: set<NamespacedName>, ch: Change<Service>, policy: NetworkPolicy)
    requires SameService(ch) && UniqueNamespaces(c) && policy in c.policies
    requires TracksNamespaces(c, tracked) && TracksEgress(c, egress)
    ensures ReferredForService(c, egress, tracked, EventObject(ch), EventFormer(ch), policy) <==>
            Exposed(EventObject(ch)) && exists z :: z in Versions(ch) && EgressRefersService(c, policy, z)
  {
    ServiceWords();
    hide IsServiceReferredOnEgress, EgressRefersService, UniqueNamespaces, TracksNamespaces, TracksEgress, Exposed, IsServiceHeadless;
    forall z { ServiceEgressExact(c, policy, z); }
    forall z | z in Versions(ch) && EgressRefersService(c, policy, z)
      ensures PotentialMatch(egress, tracked, EventObject(ch), NameOf(policy))
    {
      RefersPotentially(c, egress, tracked, policy, z);
    }
    assert EventObject(ch) in Versions(ch);
  }
}
