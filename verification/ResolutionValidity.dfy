/** What the resolver returns for well-formed objects is well-formed, so that the guarantees of
    the reconciler apply to it. */
module ResolutionValidity {
  import opened Basics
  import opened Flattening
  import opened Labels
  import opened PolicyInfo
  import opened Kubernetes
  import opened Endpoints
  import opened EgressEndpoints
  import opened References
  import IngressExactness

  // ---------------------------------------------------------------- well-formed objects

  predicate ValidPolicyPort(p: PolicyPort) {
    && CleanProtocol(ProtocolOr(p.protocol))
    && (p.port.Some? && p.port.value.Number? ==> p.port.value.number >= 1)
    && (p.endPort.Some? ==> p.endPort.value >= 1)
  }

  predicate ValidPolicyPorts(ports: seq<PolicyPort>) {
    forall p | p in ports :: ValidPolicyPort(p)
  }

  predicate ValidBlock(b: IPBlock) {
    b.cidr != "" && CleanAddress(b.cidr) && forall x | x in b.except :: CleanAddress(x)
  }

  predicate ValidPolicyRule(rule: Rule) {
    && ValidPolicyPorts(rule.ports)
    && forall peer | peer in PeersOf(rule) :: peer.ipBlock.Some? ==> ValidBlock(peer.ipBlock.value)
  }

  predicate ValidPolicy(policy: NetworkPolicy) {
    && (forall rule | rule in policy.ingress :: ValidPolicyRule(rule))
    && (forall rule | rule in policy.egress :: ValidPolicyRule(rule))
  }

  predicate ValidPodObject(pod: Pod) {
    && CleanAddress(GetPodIP(pod)) && '/' !in GetPodIP(pod)
    && '/' !in pod.hostIP && '/' !in pod.name && '/' !in pod.namespace
    && forall cp | cp in ContainerPorts(pod) :: cp.containerPort >= 1
  }

  predicate ValidServiceObject(svc: Service) {
    CleanAddress(svc.clusterIP) && forall sp | sp in svc.ports :: sp.port >= 1
  }

  predicate ValidCluster(c: Cluster) {
    && (forall pod | pod in c.pods :: ValidPodObject(pod))
    && (forall svc | svc in c.services :: ValidServiceObject(svc))
  }

  // ---------------------------------------------------------------- ports

  lemma CidrPortsValid(ports: seq<PolicyPort>)
    requires ValidPolicyPorts(ports)
    ensures ValidPorts(FlatMap(CidrPort(), ports))
  {
    hide FlatMap, CleanProtocol;
    forall q | q in FlatMap(CidrPort(), ports) ensures ValidPort(q) {
      FlatMapMembers(CidrPort(), ports, q);
      var p :| p in ports && q in CidrPort()(p);
      assert ValidPolicyPort(p);
    }
  }

  lemma PodPortsValid(pod: Pod, ports: seq<PolicyPort>)
    requires ValidPodObject(pod) && ValidPolicyPorts(ports)
    ensures ValidPorts(PodPorts(pod, ports))
  {
    hide FlatMap, CleanProtocol, CleanAddress;
    forall q | q in PodPorts(pod, ports) ensures ValidPort(q) {
      FlatMapMembers(PodPort(pod), ports, q);
      var p :| p in ports && q in PodPort(pod)(p);
      assert ValidPolicyPort(p);
    }
  }

  lemma ListenPortPositive(pods: seq<Pod>, svc: Service, port: IntOrString, protocol: string)
    requires ValidServiceObject(svc)
    ensures MatchingServicePort(pods, svc, port, protocol).Some? ==> MatchingServicePort(pods, svc, port, protocol).value >= 1
  {
    hide CleanAddress, ContainerPorts;
    var listen := MatchingServicePort(pods, svc, port, protocol);
    if LookupServiceListenPort(svc, port, protocol).Some? {
      var sp :| sp in svc.ports && ListenPortByTarget(port, protocol)(sp) == listen;
    } else if listen.Some? {
      var pod :| pod in pods && ListenPortOn(svc, port, protocol)(pod) == listen;
      var found := LookupContainerPortAndName(pod, port, protocol).value;
      var sp :| sp in svc.ports && ListenPortByContainer(found.0, found.1, protocol)(sp) == listen;
    }
  }

  lemma ClusterIPPortsValid(pods: seq<Pod>, svc: Service, ports: seq<PolicyPort>)
    requires ValidServiceObject(svc) && ValidPolicyPorts(ports)
    ensures ValidPorts(ClusterIPPorts(pods, svc, ports))
  {
    hide FlatMap, CleanProtocol, CleanAddress, MatchingServicePort, HasTargetPortBypass;
    forall q | q in ClusterIPPorts(pods, svc, ports) ensures ValidPort(q) {
      FlatMapMembers(ClusterIPPort(pods, svc, ports), ports, q);
      var p :| p in ports && q in ClusterIPPort(pods, svc, ports)(p);
      assert ValidPolicyPort(p);
      if p.port.Some? {
        ListenPortPositive(pods, svc, p.port.value, ProtocolOr(p.protocol));
      }
    }
  }

  lemma CleanForDedup(ports: seq<PolicyPort>)
    requires ValidPolicyPorts(ports)
    ensures IngressExactness.CleanPolicyPorts(ports)
  {
    forall p | p in ports ensures '@' !in ProtocolOr(p.protocol) {
      assert ValidPolicyPort(p);
    }
  }

  lemma IngressPortsValid(c: Cluster, policy: NetworkPolicy, ports: seq<PolicyPort>, r: seq<Port>)
    requires ValidCluster(c) && ValidPolicyPorts(ports) && IngressPorts(c, policy, ports, r)
    ensures ValidPorts(r)
  {
    CidrPortsValid(ports);
    CleanForDedup(ports);
    if HasNamedPort(ports) {
      var each := DestinationPorts(policy, ports);
      IngressExactness.DestinationTextual(c, policy, ports);
      hide FlatMap, DedupedFrom, ValidPort, ValidPodObject, AppliesTo, IsPodNetworkReady, ValidServiceObject, IngressExactness.Textual;
      IngressExactness.DedupExact(FlatMap(each, c.pods), r);
      forall q | q in r ensures ValidPort(q) {
        FlatMapMembers(each, c.pods, q);
        var pod :| pod in c.pods && q in each(pod);
        PodPortsValid(pod, ports);
      }
    }
  }

  // ---------------------------------------------------------------- rules

  lemma AllowAllValid(ports: seq<Port>)
    requires ValidPorts(ports)
    ensures ValidRules(AllowAll(ports))
  {
    hide ValidPorts;
  }

  lemma AddressRuleValid(cidr: string, ports: seq<Port>)
    requires cidr != "" && CleanAddress(cidr) && ValidPorts(ports)
    ensures ValidRule(EndpointInfo(cidr, [], ports, ""))
  {
  }

  lemma BlockValid(b: IPBlock, ports: seq<Port>)
    requires ValidBlock(b) && ValidPorts(ports)
    ensures ValidRule(BlockEndpoint(b, ports))
  {
  }

  lemma IngressPodsValid(c: Cluster, namespace: string, selector: Option<LabelSelector>, ports: seq<Port>, e: EndpointInfo)
    requires ValidCluster(c) && ValidPorts(ports) && e in IngressNamespace(c, selector, ports)(namespace)
    ensures ValidRule(e)
  {
    hide FlatMap, ValidRule, Matches, CleanAddress, ContainerPorts, ValidPorts, ValidServiceObject;
    FlatMapMembers(IngressPod(namespace, selector, ports), c.pods, e);
    var pod :| pod in c.pods && e in IngressPod(namespace, selector, ports)(pod);
    AddressRuleValid(GetPodIP(pod), ports);
  }

  lemma IngressRuleValid(c: Cluster, policyNamespace: string, rule: Rule, ports: seq<Port>, e: EndpointInfo)
    requires ValidCluster(c) && ValidPolicyRule(rule) && ValidPorts(ports) && e in IngressRule(c, policyNamespace, rule, ports)
    ensures ValidRule(e)
  {
    hide FlatMap, ValidRule, ValidPorts, ValidCluster, ValidPolicyPorts, ValidBlock, IngressNamespace, AllowAll, PeerNamespaces;
    if rule.peers.None? {
      AllowAllValid(ports);
    } else {
      FlatMapMembers(IngressPeer(c, policyNamespace, ports), rule.peers.value, e);
      var peer :| peer in rule.peers.value && e in IngressPeer(c, policyNamespace, ports)(peer);
      if peer.ipBlock.Some? {
        BlockValid(peer.ipBlock.value, ports);
      } else {
        var namespaces := PeerNamespaces(c, policyNamespace, peer);
        FlatMapMembers(IngressNamespace(c, peer.podSelector, ports), namespaces, e);
        var namespace :| namespace in namespaces && e in IngressNamespace(c, peer.podSelector, ports)(namespace);
        IngressPodsValid(c, namespace, peer.podSelector, ports, e);
      }
    }
  }

  lemma {:induction false} IngressRulesValid(c: Cluster, policy: NetworkPolicy, ports: seq<seq<Port>>, n: nat)
    requires ValidCluster(c) && ValidPolicy(policy) && ResolvedPorts(c, policy, ports) && n <= |policy.ingress|
    ensures ValidRules(IngressRules(c, policy, ports, n))
  {
    hide IngressRule, ValidRule, IngressPorts, ValidCluster, ValidPorts, ValidPolicyPorts;
    if n > 0 {
      IngressRulesValid(c, policy, ports, n - 1);
      var rule := policy.ingress[n - 1];
      assert ValidPolicyRule(rule);
      IngressPortsValid(c, policy, rule.ports, ports[n - 1]);
      forall e | e in IngressRule(c, policy.namespace, rule, ports[n - 1]) ensures ValidRule(e) {
        IngressRuleValid(c, policy.namespace, rule, ports[n - 1], e);
      }
    }
  }

  lemma EgressNamespaceValid(c: Cluster, namespace: string, selector: Option<LabelSelector>, ports: seq<PolicyPort>, e: EndpointInfo)
    requires ValidCluster(c) && ValidPolicyPorts(ports) && e in EgressNamespace(c, selector, ports)(namespace)
    ensures ValidRule(e)
  {
    hide FlatMap, ValidRule, Matches, CleanAddress, ContainerPorts, ValidPorts, ValidPolicyPorts, PodPorts, ClusterIPPorts, BackingPods, Selects;
    FlatMapMembers(EgressPod(namespace, selector, ports), c.pods, e);
    FlatMapMembers(ServiceEndpoint(c, namespace, selector, ports), c.services, e);
    if pod :| pod in c.pods && e in EgressPod(namespace, selector, ports)(pod) {
      assert ValidPodObject(pod);
      PodPortsValid(pod, ports);
      AddressRuleValid(GetPodIP(pod), PodPorts(pod, ports));
    } else {
      var svc :| svc in c.services && e in ServiceEndpoint(c, namespace, selector, ports)(svc);
      assert ValidServiceObject(svc);
      ClusterIPPortsValid(BackingPods(c, svc), svc, ports);
      AddressRuleValid(svc.clusterIP, ClusterIPPorts(BackingPods(c, svc), svc, ports));
    }
  }

  lemma EgressRuleValid(c: Cluster, policyNamespace: string, rule: Rule, e: EndpointInfo)
    requires ValidCluster(c) && ValidPolicyRule(rule) && e in EgressRule(c, policyNamespace)(rule)
    ensures ValidRule(e)
  {
    CidrPortsValid(rule.ports);
    hide FlatMap, ValidRule, ValidPorts, ValidCluster, ValidPolicyPorts, ValidBlock, EgressNamespace, AllowAll, PeerNamespaces;
    if rule.peers.None? {
      AllowAllValid(FlatMap(CidrPort(), rule.ports));
    } else {
      FlatMapMembers(EgressPeer(c, policyNamespace, rule.ports), rule.peers.value, e);
      var peer :| peer in rule.peers.value && e in EgressPeer(c, policyNamespace, rule.ports)(peer);
      if peer.ipBlock.Some? {
        BlockValid(peer.ipBlock.value, FlatMap(CidrPort(), rule.ports));
      } else {
        var namespaces := PeerNamespaces(c, policyNamespace, peer);
        FlatMapMembers(EgressNamespace(c, peer.podSelector, rule.ports), namespaces, e);
        var namespace :| namespace in namespaces && e in EgressNamespace(c, peer.podSelector, rule.ports)(namespace);
        EgressNamespaceValid(c, namespace, peer.podSelector, rule.ports, e);
      }
    }
  }

  lemma EgressRulesValid(c: Cluster, policy: NetworkPolicy)
    requires ValidCluster(c) && ValidPolicy(policy)
    ensures ValidRules(EgressRules(c, policy))
  {
    hide FlatMap, ValidRule, ValidCluster, EgressRule, ValidPolicyRule;
    forall e | e in EgressRules(c, policy) ensures ValidRule(e) {
      FlatMapMembers(EgressRule(c, policy.namespace), policy.egress, e);
      var rule :| rule in policy.egress && e in EgressRule(c, policy.namespace)(rule);
      EgressRuleValid(c, policy.namespace, rule, e);
    }
  }

  lemma SelectedPodsValid(c: Cluster, policy: NetworkPolicy)
    requires ValidCluster(c)
    ensures ValidPods(SelectedPods(c, policy))
  {
    hide FlatMap, AppliesTo, IsPodNetworkReady, CleanAddress, ContainerPorts, ValidServiceObject;
    forall q | q in SelectedPods(c, policy) ensures ValidPod(q) {
      FlatMapMembers(SelectedPod(policy), c.pods, q);
      var pod :| pod in c.pods && q in SelectedPod(policy)(pod);
      assert ValidPodObject(pod);
    }
  }

  /** Every possible resolution of a well-formed policy is well-formed. */
  lemma ResolutionIsValid(c: Cluster, policy: NetworkPolicy, r: Resolved)
    requires ValidCluster(c) && ValidPolicy(policy) && ResolvesTo(c, policy, r)
    ensures ValidResolved(r)
  {
    hide IngressRules, EgressRules, SelectedPods, ValidRules, ValidPods, ValidCluster, ValidPolicy, IngressPorts;
    var ports :| ResolvedPorts(c, policy, ports) && r.ingress == IngressRules(c, policy, ports, |policy.ingress|);
    IngressRulesValid(c, policy, ports, |policy.ingress|);
    EgressRulesValid(c, policy);
    SelectedPodsValid(c, policy);
  }
}
