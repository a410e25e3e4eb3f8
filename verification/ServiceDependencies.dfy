/** Changed services: exactly which changes the dependency index overlooks, and its completeness
    for all others. */
module ServiceDependencies {
  import opened Basics
  import opened Flattening
  import opened Labels
  import opened PolicyInfo
  import opened Kubernetes
  import opened Endpoints
  import opened PolicyMeaning
  import opened Lookups
  import opened EgressEndpoints
  import opened ServicePorts
  import opened References
  import opened Dependencies
  import opened NamespaceDependencies

  function WithServices(c: Cluster, ch: Change<Service>): Cluster { c.(services := After(ch)) }

  /** One service with its two versions, both as the API server admits them. */
  ghost predicate SameService(ch: Change<Service>) {
    && Happens(ch)
    && (forall y, z | y in Versions(ch) && z in Versions(ch) :: y.namespace == z.namespace && y.name == z.name)
    && (forall z | z in Versions(ch) :: DistinctServicePorts(z))
  }

  // ---------------------------------------------------------------- which changes are overlooked

  /** Every target port of either version is found at the same listen port in both. */
  predicate SameListeners(y: Service, z: Service) {
    forall sp | sp in y.ports + z.ports ::
      LookupServiceListenPort(y, sp.targetPort, sp.protocol) == LookupServiceListenPort(z, sp.targetPort, sp.protocol)
  }

  /** Created or deleted, the service has a ClusterIP but no selector. Updated, it became
      headless; or it has no selector before and after and got a ClusterIP, another one, or other
      listen ports; or a selector with labels came or went while the version without it was
      published. */
  predicate Overlooked(ch: Change<Service>) {
    match (ch.was, ch.becomes)
    case (Some(y), Some(z)) =>
      if !Exposed(z) then Exposed(y)
      else if z.selector.None? && y.selector.None? then
        !Exposed(y) || y.clusterIP != z.clusterIP || !SameListeners(y, z)
      else if z.selector.None? then y.selector != Some(map[])
      else if y.selector.None? then Exposed(y) && z.selector != Some(map[])
      else false
    case (None, Some(z)) => Exposed(z) && z.selector.None?
    case (Some(y), None) => Exposed(y) && y.selector.None?
    case (None, None) => false
  }

  /** The service changes what the policy resolves to, yet the policy is not referred. */
  ghost predicate ServiceMissed(
    c: Cluster, ch: Change<Service>, egress: set<NamespacedName>, tracked: set<NamespacedName>, policy: NetworkPolicy)
  {
    && c.services == Before(ch) && SameService(ch) && UniqueNamespaces(c) && ProperPeers(policy.egress)
    && policy in c.policies && TracksNamespaces(c, tracked) && TracksEgress(c, egress)
    && !ReferredForService(WithServices(c, ch), egress, tracked, EventObject(ch), EventFormer(ch), policy)
    && EgressRules(c, policy) != EgressRules(WithServices(c, ch), policy)
  }

  // ---------------------------------------------------------------- what the index matches

  /** A peer of the rules that selects the service's pods in its namespace. */
  ghost predicate SelectedBy(c: Cluster, policyNamespace: string, rules: seq<Rule>, svc: Service) {
    exists rule, peer :: && rule in rules && peer in PeersOf(rule) && peer.ipBlock.None?
                         && svc.namespace in PeerNamespaces(c, policyNamespace, peer)
                         && Selects(peer.podSelector, SelectorSet(svc))
  }

  lemma SelectedIsMatched(c: Cluster, policyNamespace: string, peer: Peer, svc: Service)
    requires UniqueNamespaces(c) && ProperPeer(peer) && peer.ipBlock.None? && svc.selector.Some?
    requires svc.namespace in PeerNamespaces(c, policyNamespace, peer) && Selects(peer.podSelector, SelectorSet(svc))
    ensures IsServiceMatchLabelSelector(c, svc, policyNamespace, peer)
    ensures peer.podSelector.Some? || peer.namespaceSelector.Some?
    ensures svc.namespace == policyNamespace || peer.namespaceSelector.Some?
  {
    hide Matches, FlatMap, GetNamespace;
    if peer.namespaceSelector.Some? {
      ListedNamespace(c, peer.namespaceSelector.value, svc.namespace);
    }
  }

  lemma SelectedIsReferred(c: Cluster, egress: set<NamespacedName>, tracked: set<NamespacedName>, policy: NetworkPolicy, svc: Service)
    requires UniqueNamespaces(c) && ProperPeers(policy.egress) && svc.selector.Some?
    requires policy in c.policies && TracksNamespaces(c, tracked) && TracksEgress(c, egress)
    requires SelectedBy(c, policy.namespace, policy.egress, svc)
    ensures IsServiceReferredOnEgress(c, svc, policy) && PotentialMatch(egress, tracked, svc, NameOf(policy))
  {
    hide PeerNamespaces, Selects, IsServiceMatchLabelSelector, UniqueNamespaces;
    var rule, peer :| && rule in policy.egress && peer in PeersOf(rule) && peer.ipBlock.None?
                      && svc.namespace in PeerNamespaces(c, policy.namespace, peer)
                      && Selects(peer.podSelector, SelectorSet(svc));
    SelectedIsMatched(c, policy.namespace, peer, svc);
    assert peer.namespaceSelector.Some? ==> HasNamespaceSelector(policy.egress);
  }

  /** What an unreferred policy implies for a version that has a selector. */
  ghost predicate Unreferred(
    c: Cluster, egress: set<NamespacedName>, tracked: set<NamespacedName>, ch: Change<Service>, policy: NetworkPolicy)
    requires Happens(ch)
  {
    && UniqueNamespaces(c) && ProperPeers(policy.egress)
    && policy in c.policies && TracksNamespaces(c, tracked) && TracksEgress(c, egress)
    && !ReferredForService(c, egress, tracked, EventObject(ch), EventFormer(ch), policy)
  }

  lemma UnreferredUnselected(
    c: Cluster, egress: set<NamespacedName>, tracked: set<NamespacedName>, ch: Change<Service>, policy: NetworkPolicy, z: Service)
    requires SameService(ch) && Unreferred(c, egress, tracked, ch, policy)
    requires z in Versions(ch) && z.selector.Some? && !IsServiceHeadless(EventObject(ch))
    ensures !SelectedBy(c, policy.namespace, policy.egress, z)
  {
    hide UniqueNamespaces, ProperPeers, SelectedBy, IsServiceReferredOnEgress, IsServiceHeadless, TracksEgress, TracksNamespaces, DistinctServicePorts;
    assert EventObject(ch) in Versions(ch);
    assert z.namespace == EventObject(ch).namespace;
    if SelectedBy(c, policy.namespace, policy.egress, z) {
      SelectedIsReferred(c, egress, tracked, policy, z);
    }
  }

  // ---------------------------------------------------------------- what a version contributes

  /** Equal look-ups by target give equal look-ups for every port and protocol. */
  lemma SameTargets(y: Service, z: Service, port: IntOrString, protocol: string)
    requires SameListeners(y, z)
    ensures LookupServiceListenPort(y, port, protocol) == LookupServiceListenPort(z, port, protocol)
  {
    var at := ListenPortByTarget(port, protocol);
    hide FirstSome;
    if LookupServiceListenPort(y, port, protocol).Some? {
      var sp :| sp in y.ports && at(sp) == LookupServiceListenPort(y, port, protocol);
      assert sp in y.ports + z.ports;
    } else if LookupServiceListenPort(z, port, protocol).Some? {
      var sp :| sp in z.ports && at(sp) == LookupServiceListenPort(z, port, protocol);
      assert sp in y.ports + z.ports;
    }
  }

  lemma {:induction false} FirstSomeAgree<A, B>(f: A -> Option<B>, g: A -> Option<B>, s: seq<A>)
    requires forall x | x in s :: f(x) == g(x)
    ensures FirstSome(f, s) == FirstSome(g, s)
  {
    if s != [] {
      assert s[0] in s;
      FirstSomeAgree(f, g, s[1..]);
    }
  }

  /** The target that a container port stands for when the policy port itself is no target. */
  function OtherTarget(port: IntOrString, found: (int, string)): IntOrString {
    if port.Number? then Name(found.1) else Number(found.0)
  }

  /** Matching by container port is matching by the container port's other designation. */
  lemma ByContainerIsByTarget(svc: Service, pod: Pod, port: IntOrString, protocol: string)
    requires LookupServiceListenPort(svc, port, protocol).None?
    ensures LookupListenPortFromPodSpec(svc, pod, port, protocol) ==
            match LookupContainerPortAndName(pod, port, protocol)
            case None => None
            case Some(found) => LookupServiceListenPort(svc, OtherTarget(port, found), protocol)
  {
    var found := LookupContainerPortAndName(pod, port, protocol);
    if found.Some? {
      hide FirstSome, LookupContainerPortAndName;
      var at, other := ListenPortByContainer(found.value.0, found.value.1, protocol), OtherTarget(port, found.value);
      forall sp | sp in svc.ports ensures at(sp) == ListenPortByTarget(other, protocol)(sp) {
        assert ListenPortByTarget(port, protocol)(sp).None?;
      }
      FirstSomeAgree(at, ListenPortByTarget(other, protocol), svc.ports);
    }
  }

  /** Two services with the same listeners answer every policy port alike, and through the same
      target port. */
  lemma SameListenPort(pods: seq<Pod>, y: Service, z: Service, port: IntOrString, protocol: string) returns (target: IntOrString)
    requires SameListeners(y, z)
    ensures MatchingServicePort(pods, y, port, protocol) == MatchingServicePort(pods, z, port, protocol)
    ensures var listen := MatchingServicePort(pods, y, port, protocol);
            listen.Some? ==> && LookupServiceListenPort(y, target, protocol) == listen
                             && LookupServiceListenPort(z, target, protocol) == listen
  {
    hide FirstSome, LookupServiceListenPort, LookupListenPortFromPodSpec, LookupContainerPortAndName;
    target := port;
    SameTargets(y, z, port, protocol);
    if LookupServiceListenPort(y, port, protocol).None? {
      forall pod | pod in pods
        ensures LookupListenPortFromPodSpec(y, pod, port, protocol) == LookupListenPortFromPodSpec(z, pod, port, protocol)
      {
        ByContainerIsByTarget(y, pod, port, protocol);
        ByContainerIsByTarget(z, pod, port, protocol);
        var found := LookupContainerPortAndName(pod, port, protocol);
        if found.Some? {
          SameTargets(y, z, OtherTarget(port, found.value), protocol);
        }
      }
      FirstSomeAgree(ListenPortOn(y, port, protocol), ListenPortOn(z, port, protocol), pods);
      var listen := FirstSome(ListenPortOn(y, port, protocol), pods);
      if listen.Some? {
        var pod :| pod in pods && ListenPortOn(y, port, protocol)(pod) == listen;
        ByContainerIsByTarget(y, pod, port, protocol);
        target := OtherTarget(port, LookupContainerPortAndName(pod, port, protocol).value);
        SameTargets(y, z, target, protocol);
      }
    }
  }

  /** The named target behind a listen port is determined by the port. */
  lemma NamedTargetOf(svc: Service, target: IntOrString, protocol: string, listen: int)
    requires DistinctServicePorts(svc) && LookupServiceListenPort(svc, target, protocol) == Some(listen)
    ensures FirstSome(NamedTargetPort(listen, protocol), svc.ports) ==
            if target.Name? && protocol != "" then Some(target.name) else None
  {
    var sp :| sp in svc.ports && ListenPortByTarget(target, protocol)(sp) == Some(listen);
    hide FirstSome;
    var name := FirstSome(NamedTargetPort(listen, protocol), svc.ports);
    if name.Some? {
      var found :| found in svc.ports && NamedTargetPort(listen, protocol)(found) == name;
      SamePort(svc, sp, found);
    } else {
      assert NamedTargetPort(listen, protocol)(sp).None?;
    }
  }

  /** Services that differ only in unreachable ports contribute the same. */
  lemma SameContribution(c: Cluster, namespace: string, selector: Option<LabelSelector>, ports: seq<PolicyPort>, y: Service, z: Service)
    requires y.namespace == z.namespace && y.clusterIP == z.clusterIP && SelectorSet(y) == SelectorSet(z)
    requires SameListeners(y, z) && DistinctServicePorts(y) && DistinctServicePorts(z)
    ensures ServiceEndpoint(c, namespace, selector, ports)(y) == ServiceEndpoint(c, namespace, selector, ports)(z)
  {
    hide FlatMap, FirstSome, MatchingServicePort, DistinctServicePorts, SameListeners, Selects, LookupServiceListenPort, Diverts;
    FlatMapAgree(BackingPod(y), BackingPod(z), c.pods);
    var pods := BackingPods(c, y);
    forall p | p in ports ensures ClusterIPPort(pods, y, ports)(p) == ClusterIPPort(pods, z, ports)(p) {
      if p.port.Some? {
        var protocol := ProtocolOr(p.protocol);
        var target := SameListenPort(pods, y, z, p.port.value, protocol);
        var listen := MatchingServicePort(pods, y, p.port.value, protocol);
        if listen.Some? {
          NamedTargetOf(y, target, protocol, listen.value);
          NamedTargetOf(z, target, protocol, listen.value);
        }
      }
    }
    FlatMapAgree(ClusterIPPort(pods, y, ports), ClusterIPPort(pods, z, ports), ports);
  }

  // ---------------------------------------------------------------- completeness

  /** Both versions contribute the same to a peer's namespace, for whatever ports. */
  ghost predicate SameShare(c: Cluster, ch: Change<Service>, namespace: string, selector: Option<LabelSelector>) {
    forall ports :: FlatMap(ServiceEndpoint(c, namespace, selector, ports), AsSeq(ch.was)) ==
                    FlatMap(ServiceEndpoint(c, namespace, selector, ports), AsSeq(ch.becomes))
  }

  lemma ShareOf(c: Cluster, namespace: string, selector: Option<LabelSelector>, ports: seq<PolicyPort>, x: Option<Service>)
    ensures FlatMap(ServiceEndpoint(c, namespace, selector, ports), AsSeq(x)) ==
            if x.None? then [] else ServiceEndpoint(c, namespace, selector, ports)(x.value)
  {
    if x.Some? {
      FlatMapOne(ServiceEndpoint(c, namespace, selector, ports), x.value);
    }
    hide ServiceEndpoint;
  }

  /** The version contributes nothing to any namespace that a peer of the policy visits. */
  ghost predicate Absent(c: Cluster, namespace: string, selector: Option<LabelSelector>, x: Option<Service>) {
    x.None? || IsServiceHeadless(x.value) || x.value.namespace != namespace || !Selects(selector, SelectorSet(x.value))
  }

  lemma BothAbsent(c: Cluster, ch: Change<Service>, namespace: string, selector: Option<LabelSelector>)
    requires Absent(c, namespace, selector, ch.was) && Absent(c, namespace, selector, ch.becomes)
    ensures SameShare(c, ch, namespace, selector)
  {
    hide FlatMap, Selects, SelectorSet, IsServiceHeadless;
    forall ports ensures FlatMap(ServiceEndpoint(c, namespace, selector, ports), AsSeq(ch.was)) ==
                         FlatMap(ServiceEndpoint(c, namespace, selector, ports), AsSeq(ch.becomes)) {
      ShareOf(c, namespace, selector, ports, ch.was);
      ShareOf(c, namespace, selector, ports, ch.becomes);
    }
  }

  /** A version with a selector is absent wherever an unreferred policy looks. */
  lemma SelectedAbsent(
    c: Cluster, egress: set<NamespacedName>, tracked: set<NamespacedName>, ch: Change<Service>, policy: NetworkPolicy,
    rule: Rule, peer: Peer, namespace: string, z: Service)
    requires SameService(ch) && Unreferred(c, egress, tracked, ch, policy)
    requires rule in policy.egress && peer in PeersOf(rule) && peer.ipBlock.None?
    requires namespace in PeerNamespaces(c, policy.namespace, peer)
    requires z in Versions(ch) && z.selector.Some? && !IsServiceHeadless(EventObject(ch))
    ensures z.namespace != namespace || !Selects(peer.podSelector, SelectorSet(z))
  {
    UnreferredUnselected(c, egress, tracked, ch, policy, z);
    hide PeerNamespaces, Selects, SelectorSet, Unreferred, SameService;
  }

  /** A change that is not overlooked leaves the share of every unreferred policy alone. */
  lemma UnreferredSameShare(
    c: Cluster, egress: set<NamespacedName>, tracked: set<NamespacedName>, ch: Change<Service>, policy: NetworkPolicy,
    rule: Rule, peer: Peer, namespace: string)
    requires SameService(ch) && !Overlooked(ch) && Unreferred(c, egress, tracked, ch, policy)
    requires rule in policy.egress && peer in PeersOf(rule) && peer.ipBlock.None?
    requires namespace in PeerNamespaces(c, policy.namespace, peer)
    ensures SameShare(c, ch, namespace, peer.podSelector)
  {
    ServiceWords();
    hide PeerNamespaces, Selects, Unreferred, SameShare, IsServiceHeadless, Exposed, SameListeners, DistinctServicePorts;
    var obj := EventObject(ch);
    if !IsServiceHeadless(obj) {
      forall z | z in Versions(ch) && z.selector.Some? ensures z.namespace != namespace || !Selects(peer.podSelector, SelectorSet(z)) {
        SelectedAbsent(c, egress, tracked, ch, policy, rule, peer, namespace, z);
      }
    }
    assert ch.was.Some? ==> ch.was.value in Versions(ch);
    assert ch.becomes.Some? ==> ch.becomes.value in Versions(ch);
    if ch.was.Some? && ch.becomes.Some? && !IsServiceHeadless(obj) && ch.was.value.selector.None? && ch.becomes.value.selector.None? {
      BothWithoutSelector(c, ch, namespace, peer.podSelector);
    } else {
      BothAbsent(c, ch, namespace, peer.podSelector);
    }
  }

  lemma BothWithoutSelector(c: Cluster, ch: Change<Service>, namespace: string, selector: Option<LabelSelector>)
    requires SameService(ch) && ch.was.Some? && ch.becomes.Some?
    requires ch.was.value.clusterIP == ch.becomes.value.clusterIP && SelectorSet(ch.was.value) == SelectorSet(ch.becomes.value)
    requires SameListeners(ch.was.value, ch.becomes.value)
    ensures SameShare(c, ch, namespace, selector)
  {
    assert ch.was.value in Versions(ch) && ch.becomes.value in Versions(ch);
    hide FlatMap, ServiceEndpoint, SameListeners, DistinctServicePorts, SelectorSet;
    forall ports ensures FlatMap(ServiceEndpoint(c, namespace, selector, ports), AsSeq(ch.was)) ==
                         FlatMap(ServiceEndpoint(c, namespace, selector, ports), AsSeq(ch.becomes)) {
      ShareOf(c, namespace, selector, ports, ch.was);
      ShareOf(c, namespace, selector, ports, ch.becomes);
      SameContribution(c, namespace, selector, ports, ch.was.value, ch.becomes.value);
    }
  }

  /** Every namespace that the rules' peers visit gets the same share. */
  ghost predicate SameShares(c: Cluster, ch: Change<Service>, policyNamespace: string, rules: seq<Rule>) {
    forall rule, peer, namespace | rule in rules && peer in PeersOf(rule) && peer.ipBlock.None?
                                   && namespace in PeerNamespaces(c, policyNamespace, peer) ::
      SameShare(c, ch, namespace, peer.podSelector)
  }

  lemma ServiceEndpointFromPods(c: Cluster, d: Cluster, namespace: string, selector: Option<LabelSelector>, ports: seq<PolicyPort>)
    requires c.pods == d.pods
    ensures FlatMap(ServiceEndpoint(c, namespace, selector, ports), d.services) ==
            FlatMap(ServiceEndpoint(d, namespace, selector, ports), d.services)
  {
    hide FlatMap, ClusterIPPorts, Selects, SelectorSet, IsServiceHeadless;
    FlatMapAgree(ServiceEndpoint(c, namespace, selector, ports), ServiceEndpoint(d, namespace, selector, ports), d.services);
  }

  lemma FlatMapParts<T, B>(f: T -> seq<B>, a: seq<T>, x: seq<T>, b: seq<T>)
    ensures FlatMap(f, a + x + b) == FlatMap(f, a) + FlatMap(f, x) + FlatMap(f, b)
  {
    FlatMapConcat(f, a + x, b);
    FlatMapConcat(f, a, x);
  }

  lemma ServiceFramePeer(c: Cluster, ch: Change<Service>, policyNamespace: string, rules: seq<Rule>, rule: Rule, peer: Peer)
    requires c.services == Before(ch) && rule in rules && peer in PeersOf(rule)
    requires SameShares(c, ch, policyNamespace, rules)
    ensures forall ports :: EgressPeer(c, policyNamespace, ports)(peer) ==
                            EgressPeer(WithServices(c, ch), policyNamespace, ports)(peer)
  {
    var d, namespaces, selector := WithServices(c, ch), PeerNamespaces(c, policyNamespace, peer), peer.podSelector;
    hide FlatMap, ServiceEndpoint;
    if peer.ipBlock.None? {
      forall ports ensures EgressPeer(c, policyNamespace, ports)(peer) == EgressPeer(d, policyNamespace, ports)(peer) {
        forall namespace | namespace in namespaces
          ensures EgressNamespace(c, selector, ports)(namespace) == EgressNamespace(d, selector, ports)(namespace)
        {
          assert SameShare(c, ch, namespace, selector);
          FlatMapParts(ServiceEndpoint(c, namespace, selector, ports), ch.head, AsSeq(ch.was), ch.tail);
          FlatMapParts(ServiceEndpoint(c, namespace, selector, ports), ch.head, AsSeq(ch.becomes), ch.tail);
          ServiceEndpointFromPods(c, d, namespace, selector, ports);
        }
        FlatMapAgree(EgressNamespace(c, selector, ports), EgressNamespace(d, selector, ports), namespaces);
      }
    }
  }

  lemma ServiceFrameIngress(c: Cluster, ch: Change<Service>, policyNamespace: string, peer: Peer)
    ensures forall ports :: IngressPeer(c, policyNamespace, ports)(peer) ==
                            IngressPeer(WithServices(c, ch), policyNamespace, ports)(peer)
  {
    var d, namespaces := WithServices(c, ch), PeerNamespaces(c, policyNamespace, peer);
    hide FlatMap;
    forall ports ensures IngressPeer(c, policyNamespace, ports)(peer) == IngressPeer(d, policyNamespace, ports)(peer) {
      FlatMapAgree(IngressNamespace(c, peer.podSelector, ports), IngressNamespace(d, peer.podSelector, ports), namespaces);
    }
  }

  lemma ServiceFrame(c: Cluster, ch: Change<Service>, policy: NetworkPolicy, r: Resolved)
    requires c.services == Before(ch) && SameShares(c, ch, policy.namespace, policy.egress) && ResolvesTo(c, policy, r)
    ensures ResolvesTo(WithServices(c, ch), policy, r)
  {
    var d := WithServices(c, ch);
    hide ResolvesTo, IngressPeer, EgressPeer, SameShares, FlatMap, DestinationPorts, SelectedPod;
    forall rule, peer | rule in policy.ingress && peer in PeersOf(rule) {
      ServiceFrameIngress(c, ch, policy.namespace, peer);
    }
    forall rule, peer | rule in policy.egress && peer in PeersOf(rule) {
      ServiceFramePeer(c, ch, policy.namespace, policy.egress, rule, peer);
    }
    LiftResolution(c, d, policy, r);
  }

  lemma ServiceFrameEgress(c: Cluster, ch: Change<Service>, policy: NetworkPolicy)
    requires c.services == Before(ch) && SameShares(c, ch, policy.namespace, policy.egress)
    ensures EgressRules(c, policy) == EgressRules(WithServices(c, ch), policy)
  {
    hide EgressPeer, SameShares, FlatMap;
    forall rule, peer | rule in policy.egress && peer in PeersOf(rule) {
      ServiceFramePeer(c, ch, policy.namespace, policy.egress, rule, peer);
    }
    LiftEgress(c, WithServices(c, ch), policy);
  }

  lemma SameShareBackwards(c: Cluster, d: Cluster, ch: Change<Service>, namespace: string, selector: Option<LabelSelector>)
    requires c.pods == d.pods && SameShare(c, ch, namespace, selector)
    ensures SameShare(d, Reversed(ch), namespace, selector)
  {
    hide FlatMap, ServiceEndpoint;
    forall ports ensures FlatMap(ServiceEndpoint(d, namespace, selector, ports), AsSeq(ch.becomes)) ==
                         FlatMap(ServiceEndpoint(d, namespace, selector, ports), AsSeq(ch.was)) {
      ServiceEndpointFromPods(c, d.(services := AsSeq(ch.was)), namespace, selector, ports);
      ServiceEndpointFromPods(c, d.(services := AsSeq(ch.becomes)), namespace, selector, ports);
      ServiceEndpointFromPods(d, d.(services := AsSeq(ch.was)), namespace, selector, ports);
      ServiceEndpointFromPods(d, d.(services := AsSeq(ch.becomes)), namespace, selector, ports);
    }
  }

  lemma SameSharesBackwards(c: Cluster, d: Cluster, ch: Change<Service>, policyNamespace: string, rules: seq<Rule>)
    requires c.pods == d.pods && c.namespaces == d.namespaces && SameShares(c, ch, policyNamespace, rules)
    ensures SameShares(d, Reversed(ch), policyNamespace, rules)
  {
    hide SameShare, FlatMap;
    assert forall peer :: PeerNamespaces(c, policyNamespace, peer) == PeerNamespaces(d, policyNamespace, peer);
    forall rule, peer, namespace | rule in rules && peer in PeersOf(rule) && peer.ipBlock.None?
                                   && namespace in PeerNamespaces(d, policyNamespace, peer)
      ensures SameShare(d, Reversed(ch), namespace, peer.podSelector)
    {
      SameShareBackwards(c, d, ch, namespace, peer.podSelector);
    }
  }

  lemma SameIndex(c: Cluster, d: Cluster, egress: set<NamespacedName>, tracked: set<NamespacedName>)
    requires c.namespaces == d.namespaces && c.policies == d.policies
    requires UniqueNamespaces(c) && TracksNamespaces(c, tracked) && TracksEgress(c, egress)
    ensures UniqueNamespaces(d) && TracksNamespaces(d, tracked) && TracksEgress(d, egress)
  {
    hide ContainsNamespaceReference;
  }

  lemma UnreferredSameShares(
    c: Cluster, ch: Change<Service>, egress: set<NamespacedName>, tracked: set<NamespacedName>, policy: NetworkPolicy)
    requires SameService(ch) && !Overlooked(ch) && UniqueNamespaces(c) && ProperPeers(policy.egress)
    requires policy in c.policies && TracksNamespaces(c, tracked) && TracksEgress(c, egress)
    requires !ReferredForService(WithServices(c, ch), egress, tracked, EventObject(ch), EventFormer(ch), policy)
    ensures SameShares(c, ch, policy.namespace, policy.egress)
    ensures SameShares(WithServices(c, ch), Reversed(ch), policy.namespace, policy.egress)
  {
    var d := WithServices(c, ch);
    hide ReferredForService, UniqueNamespaces, ProperPeers, SameService, Overlooked, TracksNamespaces, TracksEgress, SameShare, PeerNamespaces;
    SameIndex(c, d, egress, tracked);
    SameServiceHappens(ch);
    forall rule, peer, namespace | rule in policy.egress && peer in PeersOf(rule) && peer.ipBlock.None?
                                   && namespace in PeerNamespaces(d, policy.namespace, peer)
      ensures SameShare(d, ch, namespace, peer.podSelector)
    {
      UnreferredSameShare(d, egress, tracked, ch, policy, rule, peer, namespace);
    }
    SameSharesBackwards(d, d, ch, policy.namespace, policy.egress);
    SameSharesBackwards(d, c, ch, policy.namespace, policy.egress);
    SameSharesBackwards(c, c, Reversed(ch), policy.namespace, policy.egress);
    assert Reversed(Reversed(ch)) == ch;
  }

  lemma SameServiceHappens(ch: Change<Service>)
    requires SameService(ch)
    ensures Happens(ch)
  {
  }

  /** Service dependency completeness: a policy that a created, updated or deleted service does
      not refer to resolves to what it resolved to before, unless the change is overlooked. */
  lemma ServiceChangeComplete(
    c: Cluster, ch: Change<Service>, egress: set<NamespacedName>, tracked: set<NamespacedName>, policy: NetworkPolicy, r: Resolved)
    requires c.services == Before(ch) && SameService(ch) && !Overlooked(ch) && UniqueNamespaces(c) && ProperPeers(policy.egress)
    requires policy in c.policies && TracksNamespaces(c, tracked) && TracksEgress(c, egress)
    requires !ReferredForService(WithServices(c, ch), egress, tracked, EventObject(ch), EventFormer(ch), policy)
    ensures ResolvesTo(c, policy, r) <==> ResolvesTo(WithServices(c, ch), policy, r)
  {
    var d := WithServices(c, ch);
    hide ResolvesTo, ReferredForService, UniqueNamespaces, ProperPeers, SameService, Overlooked, TracksNamespaces, TracksEgress, SameShares;
    UnreferredSameShares(c, ch, egress, tracked, policy);
    if ResolvesTo(c, policy, r) {
      ServiceFrame(c, ch, policy, r);
    }
    if ResolvesTo(d, policy, r) {
      ServiceFrame(d, Reversed(ch), policy, r);
      assert WithServices(d, Reversed(ch)) == c;
    }
  }
}
