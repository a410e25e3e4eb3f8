/** Resolving egress rules: destination pods, and the ClusterIPs of services in front of them. */
module EgressEndpoints {
  import opened Basics
  import opened Flattening
  import opened Labels
  import opened PolicyInfo
  import opened Kubernetes
  import opened Endpoints

  // ---------------------------------------------------------------- service ports

  predicate Backs(svc: Service, pod: Pod) {
    pod.namespace == svc.namespace && Subset(SelectorSet(svc), pod.labels)
  }

  function BackingPod(svc: Service): Pod -> seq<Pod> {
    (pod: Pod) => if Backs(svc, pod) then [pod] else []
  }

  /** The pods that the service's selector matches, in listing order. */
  function BackingPods(c: Cluster, svc: Service): seq<Pod> { FlatMap(BackingPod(svc), c.pods) }

  function ListenPortOn(svc: Service, port: IntOrString, protocol: string): Pod -> Option<int> {
    (pod: Pod) => LookupListenPortFromPodSpec(svc, pod, port, protocol)
  }

  /** getMatchingServicePort: by target port, or by the container ports of the backing pods. */
  function MatchingServicePort(pods: seq<Pod>, svc: Service, port: IntOrString, protocol: string): Option<int> {
    var direct := LookupServiceListenPort(svc, port, protocol);
    if direct.Some? then direct else FirstSome(ListenPortOn(svc, port, protocol), pods)
  }

  /** One policy port allows the numeric port. */
  predicate PortAllows(p: PolicyPort, port: int, protocol: string) {
    && ProtocolOr(p.protocol) == protocol
    && match p.port
       case None => true
       case Some(Name(_)) => false
       case Some(Number(n)) => n <= port <= (match p.endPort case None => n case Some(e) => e)
  }

  predicate IsNumericPortAllowed(port: int, protocol: string, ports: seq<PolicyPort>) {
    exists p | p in ports :: PortAllows(p, port, protocol)
  }

  function NamedTargetPort(listen: int, protocol: string): ServicePort -> Option<string> {
    (sp: ServicePort) =>
      if sp.port == listen && DefaultProtocol(sp.protocol) == protocol && sp.targetPort.Name?
      then Some(sp.targetPort.name) else None
  }

  /** The pod serves the named target port on a port that the policy does not allow. */
  predicate Diverts(pod: Pod, name: string, protocol: string, ports: seq<PolicyPort>) {
    var cp := FirstNamedPort(pod, name, protocol);
    cp.Some? && !IsNumericPortAllowed(cp.value.containerPort, protocol, ports)
  }

  predicate HasTargetPortBypass(pods: seq<Pod>, svc: Service, listen: int, protocol: string, ports: seq<PolicyPort>) {
    var name := FirstSome(NamedTargetPort(listen, protocol), svc.ports);
    name.Some? && name.value != "" && exists pod | pod in pods :: Diverts(pod, name.value, protocol, ports)
  }

  /** What one policy port contributes to a service's ClusterIP. */
  function ClusterIPPort(pods: seq<Pod>, svc: Service, ports: seq<PolicyPort>): PolicyPort -> seq<Port> {
    (p: PolicyPort) =>
      var protocol := ProtocolOr(p.protocol);
      match p.port
      case None => [Port(Some(protocol), None, p.endPort)]
      case Some(port) =>
        match MatchingServicePort(pods, svc, port, protocol)
        case None => []
        case Some(listen) =>
          if port.Number? && HasTargetPortBypass(pods, svc, listen, protocol, ports) then []
          else [Port(Some(protocol), Some(listen), p.endPort)]
  }

  function ClusterIPPorts(pods: seq<Pod>, svc: Service, ports: seq<PolicyPort>): seq<Port> {
    FlatMap(ClusterIPPort(pods, svc, ports), ports)
  }

  function ServiceEndpoint(c: Cluster, namespace: string, selector: Option<LabelSelector>, ports: seq<PolicyPort>):
    Service -> seq<EndpointInfo>
  {
    (svc: Service) =>
      if svc.namespace != namespace || IsServiceHeadless(svc) || !Selects(selector, SelectorSet(svc)) then []
      else
        var resolved := ClusterIPPorts(BackingPods(c, svc), svc, ports);
        if |ports| != |resolved| && |resolved| == 0 then [] else [EndpointInfo(svc.clusterIP, [], resolved, "")]
  }

  method ServicePortList(pods: seq<Pod>, svc: Service, ports: seq<PolicyPort>) returns (r: seq<Port>)
    ensures r == ClusterIPPorts(pods, svc, ports)
  {
    hide FlatMap, MatchingServicePort, HasTargetPortBypass;
    r := [];
    FlatMapStart(ClusterIPPort(pods, svc, ports), ports);
    for i := 0 to |ports|
      invariant r == FlatMap(ClusterIPPort(pods, svc, ports), ports[..i])
    {
      FlatMapSnoc(ClusterIPPort(pods, svc, ports), ports, i);
      var protocol := ProtocolOr(ports[i].protocol);
      if ports[i].port.None? {
        r := r + [Port(Some(protocol), None, ports[i].endPort)];
      } else {
        var listen := MatchingServicePort(pods, svc, ports[i].port.value, protocol);
        if listen.Some? {
          if !(ports[i].port.value.Number? && HasTargetPortBypass(pods, svc, listen.value, protocol, ports)) {
            r := r + [Port(Some(protocol), Some(listen.value), ports[i].endPort)];
          }
        }
      }
    }
  }

  /** getMatchingServiceClusterIPs */
  method GetMatchingServiceClusterIPs(c: Cluster, selector: Option<LabelSelector>, namespace: string, ports: seq<PolicyPort>)
    returns (r: seq<EndpointInfo>)
    ensures r == FlatMap(ServiceEndpoint(c, namespace, selector, ports), c.services)
  {
    hide FlatMap, Matches, ClusterIPPorts, BackingPods, IsServiceHeadless, Selects, SelectorSet;
    r := [];
    var endpoint := ServiceEndpoint(c, namespace, selector, ports);
    FlatMapStart(endpoint, c.services);
    for i := 0 to |c.services|
      invariant r == FlatMap(endpoint, c.services[..i])
    {
      FlatMapSnoc(endpoint, c.services, i);
      var svc := c.services[i];
      if svc.namespace == namespace {
        if !IsServiceHeadless(svc) && Selects(selector, SelectorSet(svc)) {
          var resolved := ServicePortList(BackingPods(c, svc), svc, ports);
          if !(|ports| != |resolved| && |resolved| == 0) {
            r := r + [EndpointInfo(svc.clusterIP, [], resolved, "")];
          }
        }
      }
    }
  }

  // ---------------------------------------------------------------- egress rules

  function EgressPod(namespace: string, selector: Option<LabelSelector>, ports: seq<PolicyPort>): Pod -> seq<EndpointInfo> {
    (pod: Pod) =>
      if !Listed(namespace, selector, pod) || !IsPodNetworkReady(pod) then []
      else
        var resolved := PodPorts(pod, ports);
        if |ports| != |resolved| && |resolved| == 0 then [] else [EndpointInfo(GetPodIP(pod), [], resolved, "")]
  }

  function EgressNamespace(c: Cluster, selector: Option<LabelSelector>, ports: seq<PolicyPort>): string -> seq<EndpointInfo> {
    (namespace: string) =>
      FlatMap(EgressPod(namespace, selector, ports), c.pods) +
      FlatMap(ServiceEndpoint(c, namespace, selector, ports), c.services)
  }

  function EgressPeer(c: Cluster, policyNamespace: string, ports: seq<PolicyPort>): Peer -> seq<EndpointInfo> {
    (peer: Peer) =>
      if peer.ipBlock.Some? then
        var cidrPorts := FlatMap(CidrPort(), ports);
        if |ports| != 0 && |cidrPorts| == 0 then [] else [BlockEndpoint(peer.ipBlock.value, cidrPorts)]
      else FlatMap(EgressNamespace(c, peer.podSelector, ports), PeerNamespaces(c, policyNamespace, peer))
  }

  /** buildAllowAllEgress */
  function AllowAllEgress(ports: seq<PolicyPort>): seq<EndpointInfo> {
    var cidrPorts := FlatMap(CidrPort(), ports);
    if |ports| != 0 && |cidrPorts| == 0 then [] else AllowAll(cidrPorts)
  }

  function EgressRule(c: Cluster, policyNamespace: string): Rule -> seq<EndpointInfo> {
    (rule: Rule) =>
      if rule.peers.None? then AllowAllEgress(rule.ports)
      else FlatMap(EgressPeer(c, policyNamespace, rule.ports), rule.peers.value)
  }

  function EgressRules(c: Cluster, policy: NetworkPolicy): seq<EndpointInfo> {
    FlatMap(EgressRule(c, policy.namespace), policy.egress)
  }

  method EgressPodEndpoints(c: Cluster, namespace: string, selector: Option<LabelSelector>, ports: seq<PolicyPort>)
    returns (r: seq<EndpointInfo>)
    ensures r == FlatMap(EgressPod(namespace, selector, ports), c.pods)
  {
    hide FlatMap, Matches, IsPodNetworkReady, GetPodIP, PodPorts;
    r := [];
    FlatMapStart(EgressPod(namespace, selector, ports), c.pods);
    for i := 0 to |c.pods|
      invariant r == FlatMap(EgressPod(namespace, selector, ports), c.pods[..i])
    {
      FlatMapSnoc(EgressPod(namespace, selector, ports), c.pods, i);
      if Listed(namespace, selector, c.pods[i]) && IsPodNetworkReady(c.pods[i]) {
        var resolved := GetPortList(c.pods[i], ports);
        if !(|ports| != |resolved| && |resolved| == 0) {
          r := r + [EndpointInfo(GetPodIP(c.pods[i]), [], resolved, "")];
        }
      }
    }
  }

  method EgressPeerEndpoints(c: Cluster, policyNamespace: string, peer: Peer, ports: seq<PolicyPort>, cidrPorts: seq<Port>)
    returns (r: seq<EndpointInfo>)
    requires cidrPorts == FlatMap(CidrPort(), ports)
    ensures r == EgressPeer(c, policyNamespace, ports)(peer)
  {
    hide FlatMap, PeerNamespaces;
    if peer.ipBlock.Some? {
      if |ports| != 0 && |cidrPorts| == 0 {
        return [];
      }
      return [BlockEndpoint(peer.ipBlock.value, cidrPorts)];
    }
    var namespaces := ResolvePeerNamespaces(c, policyNamespace, peer);
    r := [];
    FlatMapStart(EgressNamespace(c, peer.podSelector, ports), namespaces);
    for i := 0 to |namespaces|
      invariant r == FlatMap(EgressNamespace(c, peer.podSelector, ports), namespaces[..i])
    {
      FlatMapSnoc(EgressNamespace(c, peer.podSelector, ports), namespaces, i);
      var pods := EgressPodEndpoints(c, namespaces[i], peer.podSelector, ports);
      var services := GetMatchingServiceClusterIPs(c, peer.podSelector, namespaces[i], ports);
      r := r + (pods + services);
    }
  }

  method EgressRuleEndpoints(c: Cluster, policyNamespace: string, rule: Rule) returns (r: seq<EndpointInfo>)
    ensures r == EgressRule(c, policyNamespace)(rule)
  {
    hide FlatMap, EgressPeer;
    var cidrPorts := ConvertPorts(rule.ports);
    if rule.peers.None? {
      if |rule.ports| != 0 && |cidrPorts| == 0 {
        return [];
      }
      return AllowAll(cidrPorts);
    }
    var peers := rule.peers.value;
    r := [];
    FlatMapStart(EgressPeer(c, policyNamespace, rule.ports), peers);
    for i := 0 to |peers|
      invariant r == FlatMap(EgressPeer(c, policyNamespace, rule.ports), peers[..i])
    {
      FlatMapSnoc(EgressPeer(c, policyNamespace, rule.ports), peers, i);
      var more := EgressPeerEndpoints(c, policyNamespace, peers[i], rule.ports, cidrPorts);
      r := r + more;
    }
  }

  method ComputeEgressEndpoints(c: Cluster, policy: NetworkPolicy) returns (r: seq<EndpointInfo>)
    ensures r == EgressRules(c, policy)
  {
    hide FlatMap, EgressRule;
    r := [];
    FlatMapStart(EgressRule(c, policy.namespace), policy.egress);
    for i := 0 to |policy.egress|
      invariant r == FlatMap(EgressRule(c, policy.namespace), policy.egress[..i])
    {
      FlatMapSnoc(EgressRule(c, policy.namespace), policy.egress, i);
      var more := EgressRuleEndpoints(c, policy.namespace, policy.egress[i]);
      r := r + more;
    }
  }

  // ---------------------------------------------------------------- the whole resolution

  /** `r` is a possible result of Resolve: only the order of deduplicated ports is open. */
  ghost predicate ResolvesTo(c: Cluster, policy: NetworkPolicy, r: Resolved) {
    && IngressResolvesTo(c, policy, r.ingress)
    && r.egress == EgressRules(c, policy)
    && r.pods == SelectedPods(c, policy)
  }

  method Resolve(c: Cluster, policy: NetworkPolicy) returns (r: Resolved)
    ensures ResolvesTo(c, policy, r)
  {
    hide IngressResolvesTo, EgressRules, SelectedPods;
    var ingress := ComputeIngressEndpoints(c, policy);
    var egress := ComputeEgressEndpoints(c, policy);
    var pods := ComputePodSelectorEndpoints(c, policy);
    r := Resolved(ingress, egress, pods);
  }
}
