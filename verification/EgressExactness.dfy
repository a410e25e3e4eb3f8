/** Egress resolution is exact: the resolved rules admit precisely the traffic to blocks, to
    ready pods on their own ports, and to the ClusterIPs of services in front of them. */
module EgressExactness {
  import opened Basics
  import opened Flattening
  import opened Labels
  import opened PolicyInfo
  import opened Kubernetes
  import opened Endpoints
  import opened EgressEndpoints
  import opened PolicyMeaning
  import opened Lookups
  import opened ServiceWays
  import opened IngressExactness
  import opened Combine

  // ---------------------------------------------------------------- what a policy describes

  /** Without a pod to ask, only numeric and protocol-only ports count. */
  ghost predicate BlockPortAllowed(ports: seq<PolicyPort>, f: Flow) {
    ports == [] || CoveredNumerically(ports, f)
  }

  /** Named ports are those of the destination pod. */
  ghost predicate PodPortAllowed(pod: Pod, ports: seq<PolicyPort>, f: Flow) {
    ports == [] || SomeCoversOn(pod, ports, f)
  }

  /** The flow arrives where the first way in to the policy port listens, and a numeric policy
      port is not diverted there to a forbidden container port. */
  ghost predicate ListensAt(c: Cluster, svc: Service, ports: seq<PolicyPort>, p: PolicyPort, f: Flow, i: nat)
    requires p.port.Some?
  {
    var pods := PodsBehind(c.pods, svc);
    && FirstWayIn(pods, svc, p.port.value, f.protocol, i) && i < |svc.ports|
    && InRange(f.port, svc.ports[i].port, p.endPort)
    && !(p.port.value.Number? && Bypassed(pods, svc, svc.ports[i].port, f.protocol, ports))
  }

  ghost predicate ListensFor(c: Cluster, svc: Service, ports: seq<PolicyPort>, p: PolicyPort, f: Flow) {
    && f.protocol == ProtocolOf(p)
    && (p.port.None? || exists i: nat :: ListensAt(c, svc, ports, p, f, i))
  }

  ghost predicate SomeListens(c: Cluster, svc: Service, ports: seq<PolicyPort>, f: Flow) {
    exists p :: p in ports && ListensFor(c, svc, ports, p, f)
  }

  ghost predicate ServicePortAllowed(c: Cluster, svc: Service, ports: seq<PolicyPort>, f: Flow) {
    ports == [] || SomeListens(c, svc, ports, f)
  }

  ghost predicate PeerSelectsService(c: Cluster, policyNamespace: string, peer: Peer, svc: Service) {
    && (if peer.namespaceSelector.None? then svc.namespace == policyNamespace
        else InSelectedNamespace(c, peer.namespaceSelector.value, svc.namespace))
    && Exposed(svc) && Selected(peer.podSelector, LabelsOf(svc))
  }

  ghost predicate ReachesPod(net: Network, c: Cluster, policyNamespace: string, peer: Peer, ports: seq<PolicyPort>, f: Flow, ip: string) {
    exists pod :: pod in c.pods && PeerSelects(c, policyNamespace, peer, pod) && Ready(pod)
                  && net.contains(AddressOf(pod), ip) && PodPortAllowed(pod, ports, f)
  }

  ghost predicate ReachesService(net: Network, c: Cluster, policyNamespace: string, peer: Peer, ports: seq<PolicyPort>, f: Flow, ip: string) {
    exists svc :: svc in c.services && PeerSelectsService(c, policyNamespace, peer, svc)
                  && net.contains(svc.clusterIP, ip) && ServicePortAllowed(c, svc, ports, f)
  }

  ghost predicate PeerReached(net: Network, c: Cluster, policyNamespace: string, peer: Peer, ports: seq<PolicyPort>, f: Flow) {
    && f.target.Address?
    && if peer.ipBlock.Some? then BlockCovers(net, peer.ipBlock.value, f.target.ip) && BlockPortAllowed(ports, f)
       else || ReachesPod(net, c, policyNamespace, peer, ports, f, f.target.ip)
            || ReachesService(net, c, policyNamespace, peer, ports, f, f.target.ip)
  }

  ghost predicate EgressRuleAllows(net: Network, c: Cluster, policyNamespace: string, rule: Rule, f: Flow) {
    if rule.peers.None? then f.target.Address? && BlockPortAllowed(rule.ports, f)
    else exists peer :: peer in rule.peers.value && PeerReached(net, c, policyNamespace, peer, rule.ports, f)
  }

  ghost predicate PolicyAllowsEgress(net: Network, c: Cluster, policy: NetworkPolicy, f: Flow) {
    exists rule :: rule in policy.egress && EgressRuleAllows(net, c, policy.namespace, rule, f)
  }

  // ---------------------------------------------------------------- single entries

  lemma AdmittedByFlatMap<A>(net: Network, each: A -> seq<EndpointInfo>, s: seq<A>, f: Flow)
    ensures AdmittedBy(net, FlatMap(each, s), f) <==> exists x :: x in s && AdmittedBy(net, each(x), f)
  {
    hide FlatMap, Admits;
    forall e { FlatMapMembers(each, s, e); }
    if e :| e in FlatMap(each, s) && Admits(net, e, f) {
      var x :| x in s && e in each(x);
    }
    if x :| x in s && AdmittedBy(net, each(x), f) {
      var e :| e in each(x) && Admits(net, e, f);
      assert e in FlatMap(each, s);
    }
  }

  lemma AddressEntry(net: Network, cidr: string, except: seq<string>, ports: seq<Port>, f: Flow)
    ensures AdmittedBy(net, [EndpointInfo(cidr, except, ports, "")], f) <==>
            f.target.Address? && BlockCovers(net, IPBlock(cidr, except), f.target.ip) && PortsAdmit(ports, f)
  {
    var rule := EndpointInfo(cidr, except, ports, "");
    assert AdmittedBy(net, [rule], f) <==> Admits(net, rule, f) by {
      assert rule in [rule];
    }
  }

  /** An entry is skipped when the rule has ports and none of them resolves. */
  lemma SkippedEntry(net: Network, cidr: string, except: seq<string>, ports: seq<PolicyPort>, resolved: seq<Port>, f: Flow)
    requires ports == [] ==> resolved == []
    ensures AdmittedBy(net, if |ports| != 0 && |resolved| == 0 then [] else [EndpointInfo(cidr, except, resolved, "")], f) <==>
            && f.target.Address? && BlockCovers(net, IPBlock(cidr, except), f.target.ip)
            && (ports == [] || SomePortAdmits(resolved, f))
  {
    AddressEntry(net, cidr, except, resolved, f);
    hide BlockCovers, PortAdmits;
  }

  lemma PodPortsMeaning(pod: Pod, ports: seq<PolicyPort>, f: Flow)
    ensures SomePortAdmits(PodPorts(pod, ports), f) <==> SomeCoversOn(pod, ports, f)
    ensures ports == [] ==> PodPorts(pod, ports) == []
  {
    assert ports == [] ==> FlatMap(PodPort(pod), ports) == [];
    hide FlatMap, PortAdmits, CoversOn;
    if q :| q in PodPorts(pod, ports) && PortAdmits(q, f) {
      FlatMapMembers(PodPort(pod), ports, q);
      var p :| p in ports && q in PodPort(pod)(p);
      PodPortMeaning(pod, p, f);
    }
    if p :| p in ports && CoversOn(pod, p, f) {
      PodPortMeaning(pod, p, f);
      var q :| q in PodPort(pod)(p) && PortAdmits(q, f);
      FlatMapMembers(PodPort(pod), ports, q);
    }
  }

  lemma EgressPodMeaning(net: Network, namespace: string, selector: Option<LabelSelector>, ports: seq<PolicyPort>, pod: Pod, f: Flow)
    ensures AdmittedBy(net, EgressPod(namespace, selector, ports)(pod), f) <==>
            && pod.namespace == namespace && Selected(selector, pod.labels) && Ready(pod)
            && f.target.Address? && net.contains(AddressOf(pod), f.target.ip) && PodPortAllowed(pod, ports, f)
  {
    PodWords();
    hide Selects, Selected, IsPodNetworkReady, Ready, GetPodIP, AddressOf, PodPorts, SomePortAdmits, SomeCoversOn;
    PodPortsMeaning(pod, ports, f);
    SkippedEntry(net, GetPodIP(pod), [], ports, PodPorts(pod, ports), f);
    NothingAdmitted(net, f);
    hide AdmittedBy;
  }

  lemma ClusterIPPortMeaning(c: Cluster, svc: Service, ports: seq<PolicyPort>, p: PolicyPort, f: Flow)
    ensures SomePortAdmits(ClusterIPPort(BackingPods(c, svc), svc, ports)(p), f) <==> ListensFor(c, svc, ports, p, f)
  {
    ProtocolWords();
    hide BackingPods, MatchingServicePort, HasTargetPortBypass, ListensFor;
    var entry := ClusterIPPort(BackingPods(c, svc), svc, ports)(p);
    assert |entry| <= 1;
    ListensByMatch(c, svc, ports, p, f);
    if entry != [] {
      assert SomePortAdmits(entry, f) <==> PortAdmits(entry[0], f);
    }
  }

  /** The resolver's look-up and its bypass check say the same. */
  lemma ListensByMatch(c: Cluster, svc: Service, ports: seq<PolicyPort>, p: PolicyPort, f: Flow)
    ensures ListensFor(c, svc, ports, p, f) <==>
            && f.protocol == ProtocolOf(p)
            && (p.port.None? ||
                var listen := MatchingServicePort(BackingPods(c, svc), svc, p.port.value, f.protocol);
                && listen.Some? && InRange(f.port, listen.value, p.endPort)
                && !(p.port.value.Number? && HasTargetPortBypass(BackingPods(c, svc), svc, listen.value, f.protocol, ports)))
  {
    var pods := PodsBehind(c.pods, svc);
    BehindInOrder(c.pods, svc);
    assert BackingPods(c, svc) == pods;
    hide BackingPods, PodsBehind, MatchingServicePort, HasTargetPortBypass, Bypassed, FirstWayIn, InRange;
    if p.port.Some? {
      MatchedExactly(pods, svc, p.port.value, f.protocol);
      var listen := MatchingServicePort(pods, svc, p.port.value, f.protocol);
      if listen.Some? {
        BypassMeaning(pods, svc, listen.value, f.protocol, ports);
        var i: nat :| FirstWayIn(pods, svc, p.port.value, f.protocol, i);
        forall j: nat | ListensAt(c, svc, ports, p, f, j) ensures svc.ports[j].port == listen.value {
        }
        if f.protocol == ProtocolOf(p) && InRange(f.port, listen.value, p.endPort)
           && !(p.port.value.Number? && Bypassed(pods, svc, listen.value, f.protocol, ports)) {
          assert ListensAt(c, svc, ports, p, f, i);
        }
      }
    }
  }

  lemma ClusterIPPortsMeaning(c: Cluster, svc: Service, ports: seq<PolicyPort>, f: Flow)
    ensures SomePortAdmits(ClusterIPPorts(BackingPods(c, svc), svc, ports), f) <==> SomeListens(c, svc, ports, f)
    ensures ports == [] ==> ClusterIPPorts(BackingPods(c, svc), svc, ports) == []
  {
    var each := ClusterIPPort(BackingPods(c, svc), svc, ports);
    assert ports == [] ==> FlatMap(each, ports) == [];
    hide FlatMap, PortAdmits, ListensFor, BackingPods, ClusterIPPort;
    if q :| q in FlatMap(each, ports) && PortAdmits(q, f) {
      FlatMapMembers(each, ports, q);
      var p :| p in ports && q in each(p);
      ClusterIPPortMeaning(c, svc, ports, p, f);
    }
    if p :| p in ports && ListensFor(c, svc, ports, p, f) {
      ClusterIPPortMeaning(c, svc, ports, p, f);
      var q :| q in each(p) && PortAdmits(q, f);
      FlatMapMembers(each, ports, q);
    }
  }

  lemma ServiceMeaning(net: Network, c: Cluster, namespace: string, selector: Option<LabelSelector>, ports: seq<PolicyPort>, svc: Service, f: Flow)
    ensures AdmittedBy(net, ServiceEndpoint(c, namespace, selector, ports)(svc), f) <==>
            && svc.namespace == namespace && Exposed(svc) && Selected(selector, LabelsOf(svc))
            && f.target.Address? && net.contains(svc.clusterIP, f.target.ip) && ServicePortAllowed(c, svc, ports, f)
  {
    PodWords();
    ServiceWords();
    hide Selects, Selected, SelectorSet, LabelsOf, IsServiceHeadless, Exposed, BackingPods, ClusterIPPorts, SomePortAdmits, SomeListens;
    ClusterIPPortsMeaning(c, svc, ports, f);
    SkippedEntry(net, svc.clusterIP, [], ports, ClusterIPPorts(BackingPods(c, svc), svc, ports), f);
    NothingAdmitted(net, f);
    hide AdmittedBy;
  }

  // ---------------------------------------------------------------- peers

  lemma PodsReached(net: Network, c: Cluster, policyNamespace: string, peer: Peer, ports: seq<PolicyPort>, f: Flow)
    requires f.target.Address?
    ensures ReachesPod(net, c, policyNamespace, peer, ports, f, f.target.ip) <==>
            exists ns :: ns in PeerNamespaces(c, policyNamespace, peer)
                         && AdmittedBy(net, FlatMap(EgressPod(ns, peer.podSelector, ports), c.pods), f)
  {
    hide FlatMap, AdmittedBy, Ready, AddressOf, PodPortAllowed, PeerNamespaces, InSelectedNamespace, Matches, EgressPod;
    if ReachesPod(net, c, policyNamespace, peer, ports, f, f.target.ip) {
      var pod :| pod in c.pods && PeerSelects(c, policyNamespace, peer, pod) && Ready(pod)
                 && net.contains(AddressOf(pod), f.target.ip) && PodPortAllowed(pod, ports, f);
      NamespaceListed(c, policyNamespace, peer, pod.namespace);
      EgressPodMeaning(net, pod.namespace, peer.podSelector, ports, pod, f);
      AdmittedByFlatMap(net, EgressPod(pod.namespace, peer.podSelector, ports), c.pods, f);
    }
    if ns :| ns in PeerNamespaces(c, policyNamespace, peer)
             && AdmittedBy(net, FlatMap(EgressPod(ns, peer.podSelector, ports), c.pods), f) {
      AdmittedByFlatMap(net, EgressPod(ns, peer.podSelector, ports), c.pods, f);
      var pod :| pod in c.pods && AdmittedBy(net, EgressPod(ns, peer.podSelector, ports)(pod), f);
      EgressPodMeaning(net, ns, peer.podSelector, ports, pod, f);
      NamespaceListed(c, policyNamespace, peer, ns);
      assert PeerSelects(c, policyNamespace, peer, pod);
    }
  }

  lemma ServicesReached(net: Network, c: Cluster, policyNamespace: string, peer: Peer, ports: seq<PolicyPort>, f: Flow)
    requires f.target.Address?
    ensures ReachesService(net, c, policyNamespace, peer, ports, f, f.target.ip) <==>
            exists ns :: ns in PeerNamespaces(c, policyNamespace, peer)
                         && AdmittedBy(net, FlatMap(ServiceEndpoint(c, ns, peer.podSelector, ports), c.services), f)
  {
    hide FlatMap, AdmittedBy, Exposed, LabelsOf, Selected, ServicePortAllowed, PeerNamespaces, InSelectedNamespace, ServiceEndpoint;
    if ReachesService(net, c, policyNamespace, peer, ports, f, f.target.ip) {
      var svc :| svc in c.services && PeerSelectsService(c, policyNamespace, peer, svc)
                 && net.contains(svc.clusterIP, f.target.ip) && ServicePortAllowed(c, svc, ports, f);
      NamespaceListed(c, policyNamespace, peer, svc.namespace);
      ServiceMeaning(net, c, svc.namespace, peer.podSelector, ports, svc, f);
      AdmittedByFlatMap(net, ServiceEndpoint(c, svc.namespace, peer.podSelector, ports), c.services, f);
    }
    if ns :| ns in PeerNamespaces(c, policyNamespace, peer)
             && AdmittedBy(net, FlatMap(ServiceEndpoint(c, ns, peer.podSelector, ports), c.services), f) {
      AdmittedByFlatMap(net, ServiceEndpoint(c, ns, peer.podSelector, ports), c.services, f);
      var svc :| svc in c.services && AdmittedBy(net, ServiceEndpoint(c, ns, peer.podSelector, ports)(svc), f);
      ServiceMeaning(net, c, ns, peer.podSelector, ports, svc, f);
      NamespaceListed(c, policyNamespace, peer, ns);
      assert PeerSelectsService(c, policyNamespace, peer, svc);
    }
  }

  lemma NamespaceMeaning(net: Network, c: Cluster, ns: string, selector: Option<LabelSelector>, ports: seq<PolicyPort>, f: Flow)
    ensures AdmittedBy(net, EgressNamespace(c, selector, ports)(ns), f) <==>
            || AdmittedBy(net, FlatMap(EgressPod(ns, selector, ports), c.pods), f)
            || AdmittedBy(net, FlatMap(ServiceEndpoint(c, ns, selector, ports), c.services), f)
    ensures AdmittedBy(net, EgressNamespace(c, selector, ports)(ns), f) ==> f.target.Address?
  {
    hide FlatMap, AdmittedBy, EgressPod, ServiceEndpoint;
    AdmittedByConcat(net, FlatMap(EgressPod(ns, selector, ports), c.pods), FlatMap(ServiceEndpoint(c, ns, selector, ports), c.services), f);
    AdmittedByFlatMap(net, EgressPod(ns, selector, ports), c.pods, f);
    AdmittedByFlatMap(net, ServiceEndpoint(c, ns, selector, ports), c.services, f);
    forall pod { EgressPodMeaning(net, ns, selector, ports, pod, f); }
    forall svc { ServiceMeaning(net, c, ns, selector, ports, svc, f); }
  }

  lemma CidrPortsNone(ports: seq<PolicyPort>)
    ensures ports == [] ==> FlatMap(CidrPort(), ports) == []
  {
  }

  lemma BlockMeaning(net: Network, b: IPBlock, ports: seq<PolicyPort>, f: Flow)
    ensures var cidrPorts := FlatMap(CidrPort(), ports);
            AdmittedBy(net, if |ports| != 0 && |cidrPorts| == 0 then [] else [BlockEndpoint(b, cidrPorts)], f) <==>
            f.target.Address? && BlockCovers(net, b, f.target.ip) && BlockPortAllowed(ports, f)
  {
    CidrPortsNone(ports);
    CidrPortsMeaning(ports, f);
    hide FlatMap, SomePortAdmits, CoveredNumerically, BlockCovers, AdmittedBy;
    SkippedEntry(net, b.cidr, b.except, ports, FlatMap(CidrPort(), ports), f);
    assert b == IPBlock(b.cidr, b.except);
  }

  lemma PeerExact(net: Network, c: Cluster, policyNamespace: string, peer: Peer, ports: seq<PolicyPort>, f: Flow)
    ensures AdmittedBy(net, EgressPeer(c, policyNamespace, ports)(peer), f) <==> PeerReached(net, c, policyNamespace, peer, ports, f)
  {
    hide FlatMap, AdmittedBy, PeerNamespaces, EgressNamespace, ReachesPod, ReachesService, BlockCovers, BlockPortAllowed;
    if peer.ipBlock.Some? {
      BlockMeaning(net, peer.ipBlock.value, ports, f);
    } else {
      var namespaces := PeerNamespaces(c, policyNamespace, peer);
      AdmittedByFlatMap(net, EgressNamespace(c, peer.podSelector, ports), namespaces, f);
      forall ns { NamespaceMeaning(net, c, ns, peer.podSelector, ports, f); }
      if f.target.Address? {
        PodsReached(net, c, policyNamespace, peer, ports, f);
        ServicesReached(net, c, policyNamespace, peer, ports, f);
      }
    }
  }

  lemma EveryAddress(net: Network, ports: seq<Port>, f: Flow)
    requires Universal(net)
    ensures AdmittedBy(net, AllowAll(ports), f) <==> f.target.Address? && PortsAdmit(ports, f)
  {
    var ip := if f.target.Address? then f.target.ip else "";
    AllowAllMeaning(net, ports, ip);
    hide AllowAll, Universal;
    UniformAdmits(net, AllowAll(ports), ports, f);
  }

  lemma EgressRuleExact(net: Network, c: Cluster, policyNamespace: string, rule: Rule, f: Flow)
    requires Universal(net)
    ensures AdmittedBy(net, EgressRule(c, policyNamespace)(rule), f) <==> EgressRuleAllows(net, c, policyNamespace, rule, f)
  {
    hide FlatMap, AdmittedBy, EgressPeer, PeerReached, Universal, AllowAll, CoveredNumerically;
    if rule.peers.None? {
      CidrPortsNone(rule.ports);
      CidrPortsMeaning(rule.ports, f);
      EveryAddress(net, FlatMap(CidrPort(), rule.ports), f);
      NothingAdmitted(net, f);
    } else {
      AdmittedByFlatMap(net, EgressPeer(c, policyNamespace, rule.ports), rule.peers.value, f);
      forall peer { PeerExact(net, c, policyNamespace, peer, rule.ports, f); }
    }
  }

  /** Egress resolution is exact, for every policy and cluster. */
  lemma EgressExact(net: Network, c: Cluster, policy: NetworkPolicy, f: Flow)
    requires Universal(net)
    ensures AdmittedBy(net, EgressRules(c, policy), f) <==> PolicyAllowsEgress(net, c, policy, f)
  {
    hide FlatMap, AdmittedBy, EgressRule, EgressRuleAllows, Universal;
    AdmittedByFlatMap(net, EgressRule(c, policy.namespace), policy.egress, f);
    forall rule { EgressRuleExact(net, c, policy.namespace, rule, f); }
  }

  // ---------------------------------------------------------------- which addresses are published

  /** Services without a ClusterIP contribute nothing. */
  lemma HeadlessUnpublished(c: Cluster, namespace: string, selector: Option<LabelSelector>, ports: seq<PolicyPort>, svc: Service)
    requires svc.clusterIP == "" || svc.clusterIP == "None"
    ensures ServiceEndpoint(c, namespace, selector, ports)(svc) == []
  {
  }

  /** The address of a ready pod or the ClusterIP of a service that has one. */
  ghost predicate ObjectAddress(c: Cluster, address: string) {
    || (exists pod :: pod in c.pods && Ready(pod) && address == AddressOf(pod))
    || (exists svc :: svc in c.services && address == svc.clusterIP && svc.clusterIP != "" && svc.clusterIP != "None")
  }

  /** The address of a block of the rule, or every address for a rule without peers. */
  predicate RuleAddress(rule: Rule, address: string) {
    if rule.peers.None? then address == "0.0.0.0/0" || address == "::/0"
    else exists peer | peer in rule.peers.value :: peer.ipBlock.Some? && address == peer.ipBlock.value.cidr
  }

  lemma NamespaceAddress(c: Cluster, ns: string, selector: Option<LabelSelector>, ports: seq<PolicyPort>, e: EndpointInfo)
    requires e in EgressNamespace(c, selector, ports)(ns)
    ensures ObjectAddress(c, e.cidr)
  {
    PodWords();
    hide FlatMap, Listed, IsPodNetworkReady, Ready, GetPodIP, AddressOf, PodPorts, ClusterIPPorts, BackingPods, Selects;
    if e in FlatMap(EgressPod(ns, selector, ports), c.pods) {
      FlatMapMembers(EgressPod(ns, selector, ports), c.pods, e);
    } else {
      FlatMapMembers(ServiceEndpoint(c, ns, selector, ports), c.services, e);
    }
  }

  lemma PeerAddress(c: Cluster, policyNamespace: string, peer: Peer, ports: seq<PolicyPort>, e: EndpointInfo)
    requires e in EgressPeer(c, policyNamespace, ports)(peer)
    ensures ObjectAddress(c, e.cidr) || (peer.ipBlock.Some? && e.cidr == peer.ipBlock.value.cidr)
  {
    hide FlatMap, EgressNamespace, ObjectAddress, PeerNamespaces;
    if peer.ipBlock.None? {
      var namespaces := PeerNamespaces(c, policyNamespace, peer);
      FlatMapMembers(EgressNamespace(c, peer.podSelector, ports), namespaces, e);
      var ns :| ns in namespaces && e in EgressNamespace(c, peer.podSelector, ports)(ns);
      NamespaceAddress(c, ns, peer.podSelector, ports, e);
    }
  }

  /** Every resolved egress rule has an address of its policy rule, of a ready pod, or of a service
      that has a ClusterIP. */
  lemma EgressAddresses(c: Cluster, policy: NetworkPolicy, e: EndpointInfo)
    requires e in EgressRules(c, policy)
    ensures ObjectAddress(c, e.cidr) || exists rule :: rule in policy.egress && RuleAddress(rule, e.cidr)
  {
    hide FlatMap, EgressPeer, ObjectAddress;
    FlatMapMembers(EgressRule(c, policy.namespace), policy.egress, e);
    var rule :| rule in policy.egress && e in EgressRule(c, policy.namespace)(rule);
    if rule.peers.Some? {
      FlatMapMembers(EgressPeer(c, policy.namespace, rule.ports), rule.peers.value, e);
      var peer :| peer in rule.peers.value && e in EgressPeer(c, policy.namespace, rule.ports)(peer);
      PeerAddress(c, policy.namespace, peer, rule.ports, e);
    }
  }
}
