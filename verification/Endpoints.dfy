/** Resolving a NetworkPolicy against the cluster: the loops of pkg/resolvers/endpoints.go and
    the lists that they accumulate. */
module Endpoints {
  import opened Basics
  import opened Flattening
  import opened Labels
  import opened PolicyInfo
  import opened Kubernetes
  import opened Framing
  import Combine

  // ---------------------------------------------------------------- ports

  /** convertToPolicyInfoPortForCIDRs: a named port cannot be resolved without a pod. */
  function CidrPort(): PolicyPort -> seq<Port> {
    (p: PolicyPort) =>
      match p.port
      case None => [Port(Some(ProtocolOr(p.protocol)), None, None)]
      case Some(Name(_)) => []
      case Some(Number(n)) => [Port(Some(ProtocolOr(p.protocol)), Some(n), p.endPort)]
  }

  /** The port of one pod that a policy port stands for; none when its name is not declared. */
  function PodPort(pod: Pod): PolicyPort -> seq<Port> {
    (p: PolicyPort) =>
      var protocol := ProtocolOr(p.protocol);
      match p.port
      case None => [Port(Some(protocol), None, p.endPort)]
      case Some(port) =>
        match LookupContainerPortAndName(pod, port, protocol)
        case None => []
        case Some(found) => [Port(Some(protocol), Some(found.0), p.endPort)]
  }

  function PodPorts(pod: Pod, ports: seq<PolicyPort>): seq<Port> { FlatMap(PodPort(pod), ports) }

  method ConvertPorts(ports: seq<PolicyPort>) returns (r: seq<Port>)
    ensures r == FlatMap(CidrPort(), ports)
  {
    hide FlatMap;
    r := [];
    FlatMapStart(CidrPort(), ports);
    for i := 0 to |ports|
      invariant r == FlatMap(CidrPort(), ports[..i])
    {
      FlatMapSnoc(CidrPort(), ports, i);
      r := r + CidrPort()(ports[i]);
    }
  }

  /** getPortList */
  method GetPortList(pod: Pod, ports: seq<PolicyPort>) returns (r: seq<Port>)
    ensures r == PodPorts(pod, ports)
  {
    hide FlatMap;
    r := [];
    FlatMapStart(PodPort(pod), ports);
    for i := 0 to |ports|
      invariant r == FlatMap(PodPort(pod), ports[..i])
    {
      FlatMapSnoc(PodPort(pod), ports, i);
      var protocol := ProtocolOr(ports[i].protocol);
      if ports[i].port.None? {
        r := r + [Port(Some(protocol), None, ports[i].endPort)];
      } else {
        var found := LookupContainerPortAndName(pod, ports[i].port.value, protocol);
        if found.Some? {
          r := r + [Port(Some(protocol), Some(found.value.0), ports[i].endPort)];
        }
      }
    }
  }

  // ---------------------------------------------------------------- dedupPorts

  function PortText(p: Port): string {
    (match p.protocol case None => "" case Some(x) => x) + "@" + NumberText(p.port) + "@" + NumberText(p.endPort)
  }

  function PortsByText(ports: seq<Port>): map<string, Port> {
    if ports == [] then map[] else
      PortsByText(ports[..|ports| - 1])[PortText(ports[|ports| - 1]) := ports[|ports| - 1]]
  }

  /** `r` is a possible result of dedupPorts: the order is the map's. */
  ghost predicate DedupedFrom(ports: seq<Port>, r: seq<Port>) {
    Combine.ListsValues(r, PortsByText(ports))
  }

  method DedupPorts(ports: seq<Port>) returns (r: seq<Port>)
    ensures DedupedFrom(ports, r)
  {
    hide PortText;
    var m: map<string, Port> := map[];
    for i := 0 to |ports|
      invariant m == PortsByText(ports[..i])
    {
      assert ports[..i + 1][..i] == ports[..i];
      m := m[PortText(ports[i]) := ports[i]];
    }
    assert ports[..|ports|] == ports;
    r := Combine.Values(m);
  }

  // ---------------------------------------------------------------- ingress

  predicate HasNamedPort(ports: seq<PolicyPort>) {
    exists p | p in ports :: p.port.Some? && p.port.value.Name?
  }

  /** The pod is one that the policy applies to. */
  predicate AppliesTo(policy: NetworkPolicy, pod: Pod) {
    pod.namespace == policy.namespace && Matches(policy.podSelector, pod.labels)
  }

  function DestinationPorts(policy: NetworkPolicy, ports: seq<PolicyPort>): Pod -> seq<Port> {
    (pod: Pod) => if AppliesTo(policy, pod) && IsPodNetworkReady(pod) then PodPorts(pod, ports) else []
  }

  /** `r` is a possible result of resolveIngressPorts. */
  ghost predicate IngressPorts(c: Cluster, policy: NetworkPolicy, ports: seq<PolicyPort>, r: seq<Port>) {
    if HasNamedPort(ports) then DedupedFrom(FlatMap(DestinationPorts(policy, ports), c.pods), r)
    else r == FlatMap(CidrPort(), ports)
  }

  method ResolveIngressPorts(c: Cluster, policy: NetworkPolicy, ports: seq<PolicyPort>) returns (r: seq<Port>)
    ensures IngressPorts(c, policy, ports, r)
  {
    hide FlatMap, PodPorts, Matches, IsPodNetworkReady, DedupedFrom;
    if !HasNamedPort(ports) {
      r := ConvertPorts(ports);
      return;
    }
    var all := [];
    FlatMapStart(DestinationPorts(policy, ports), c.pods);
    for i := 0 to |c.pods|
      invariant all == FlatMap(DestinationPorts(policy, ports), c.pods[..i])
    {
      FlatMapSnoc(DestinationPorts(policy, ports), c.pods, i);
      if AppliesTo(policy, c.pods[i]) && IsPodNetworkReady(c.pods[i]) {
        var ps := GetPortList(c.pods[i], ports);
        all := all + ps;
      }
    }
    r := DedupPorts(all);
  }

  function AllowAll(ports: seq<Port>): seq<EndpointInfo> {
    [EndpointInfo("0.0.0.0/0", [], ports, ""), EndpointInfo("::/0", [], ports, "")]
  }

  function BlockEndpoint(b: IPBlock, ports: seq<Port>): EndpointInfo {
    EndpointInfo(b.cidr, b.except, ports, "")
  }

  /** listMatchingPods */
  predicate Listed(namespace: string, selector: Option<LabelSelector>, pod: Pod) {
    pod.namespace == namespace && Selects(selector, pod.labels)
  }

  function IngressPod(namespace: string, selector: Option<LabelSelector>, ports: seq<Port>): Pod -> seq<EndpointInfo> {
    (pod: Pod) =>
      if Listed(namespace, selector, pod) && IsPodNetworkReady(pod)
      then [EndpointInfo(GetPodIP(pod), [], ports, "")] else []
  }

  function IngressNamespace(c: Cluster, selector: Option<LabelSelector>, ports: seq<Port>): string -> seq<EndpointInfo> {
    (namespace: string) => FlatMap(IngressPod(namespace, selector, ports), c.pods)
  }

  function IngressPeer(c: Cluster, policyNamespace: string, ports: seq<Port>): Peer -> seq<EndpointInfo> {
    (peer: Peer) =>
      if peer.ipBlock.Some? then [BlockEndpoint(peer.ipBlock.value, ports)]
      else FlatMap(IngressNamespace(c, peer.podSelector, ports), PeerNamespaces(c, policyNamespace, peer))
  }

  /** What one ingress rule contributes once its ports are resolved. */
  function IngressRule(c: Cluster, policyNamespace: string, rule: Rule, ports: seq<Port>): seq<EndpointInfo> {
    if |rule.ports| != 0 && |ports| == 0 then []
    else if rule.peers.None? then AllowAll(ports)
    else FlatMap(IngressPeer(c, policyNamespace, ports), rule.peers.value)
  }

  /** The first n ingress rules, with the ports that were resolved for each. */
  function IngressRules(c: Cluster, policy: NetworkPolicy, ports: seq<seq<Port>>, n: nat): seq<EndpointInfo>
    requires n <= |policy.ingress| == |ports|
  {
    if n == 0 then [] else
      IngressRules(c, policy, ports, n - 1) + IngressRule(c, policy.namespace, policy.ingress[n - 1], ports[n - 1])
  }

  /** The ports chosen for every ingress rule. */
  ghost predicate ResolvedPorts(c: Cluster, policy: NetworkPolicy, ports: seq<seq<Port>>) {
    && |ports| == |policy.ingress|
    && forall i :: 0 <= i < |ports| ==> IngressPorts(c, policy, policy.ingress[i].ports, ports[i])
  }

  method IngressPodEndpoints(c: Cluster, namespace: string, selector: Option<LabelSelector>, ports: seq<Port>)
    returns (r: seq<EndpointInfo>)
    ensures r == IngressNamespace(c, selector, ports)(namespace)
  {
    hide FlatMap, Matches, IsPodNetworkReady, GetPodIP;
    r := [];
    FlatMapStart(IngressPod(namespace, selector, ports), c.pods);
    for i := 0 to |c.pods|
      invariant r == FlatMap(IngressPod(namespace, selector, ports), c.pods[..i])
    {
      FlatMapSnoc(IngressPod(namespace, selector, ports), c.pods, i);
      if Listed(namespace, selector, c.pods[i]) && IsPodNetworkReady(c.pods[i]) {
        r := r + [EndpointInfo(GetPodIP(c.pods[i]), [], ports, "")];
      }
    }
  }

  /** resolveNamespaces and resolvePeerNamespaces */
  method ResolvePeerNamespaces(c: Cluster, policyNamespace: string, peer: Peer) returns (r: seq<string>)
    ensures r == PeerNamespaces(c, policyNamespace, peer)
  {
    hide FlatMap, Matches;
    if peer.namespaceSelector.None? {
      return [policyNamespace];
    }
    var selector := peer.namespaceSelector.value;
    r := [];
    FlatMapStart(NamespaceNamed(selector), c.namespaces);
    for i := 0 to |c.namespaces|
      invariant r == FlatMap(NamespaceNamed(selector), c.namespaces[..i])
    {
      FlatMapSnoc(NamespaceNamed(selector), c.namespaces, i);
      if Matches(selector, c.namespaces[i].labels) {
        r := r + [c.namespaces[i].name];
      }
    }
  }

  method IngressPeerEndpoints(c: Cluster, policyNamespace: string, peer: Peer, ports: seq<Port>)
    returns (r: seq<EndpointInfo>)
    ensures r == IngressPeer(c, policyNamespace, ports)(peer)
  {
    hide FlatMap, PeerNamespaces, IngressNamespace;
    if peer.ipBlock.Some? {
      return [BlockEndpoint(peer.ipBlock.value, ports)];
    }
    var namespaces := ResolvePeerNamespaces(c, policyNamespace, peer);
    r := [];
    FlatMapStart(IngressNamespace(c, peer.podSelector, ports), namespaces);
    for i := 0 to |namespaces|
      invariant r == FlatMap(IngressNamespace(c, peer.podSelector, ports), namespaces[..i])
    {
      FlatMapSnoc(IngressNamespace(c, peer.podSelector, ports), namespaces, i);
      var pods := IngressPodEndpoints(c, namespaces[i], peer.podSelector, ports);
      r := r + pods;
    }
  }

  method IngressRuleEndpoints(c: Cluster, policyNamespace: string, rule: Rule, ports: seq<Port>)
    returns (r: seq<EndpointInfo>)
    ensures r == IngressRule(c, policyNamespace, rule, ports)
  {
    hide FlatMap, IngressPeer;
    if |rule.ports| != 0 && |ports| == 0 {
      return [];
    }
    if rule.peers.None? {
      return AllowAll(ports);
    }
    var peers := rule.peers.value;
    r := [];
    FlatMapStart(IngressPeer(c, policyNamespace, ports), peers);
    for i := 0 to |peers|
      invariant r == FlatMap(IngressPeer(c, policyNamespace, ports), peers[..i])
    {
      FlatMapSnoc(IngressPeer(c, policyNamespace, ports), peers, i);
      var more := IngressPeerEndpoints(c, policyNamespace, peers[i], ports);
      r := r + more;
    }
  }

  lemma {:induction false} IngressRulesAgree(c: Cluster, policy: NetworkPolicy, a: seq<seq<Port>>, b: seq<seq<Port>>, n: nat)
    requires n <= |policy.ingress| == |a| == |b|
    requires a[..n] == b[..n]
    ensures IngressRules(c, policy, a, n) == IngressRules(c, policy, b, n)
  {
    hide IngressRule;
    if n > 0 {
      assert a[..n - 1] == a[..n][..n - 1] && b[..n - 1] == b[..n][..n - 1];
      assert a[n - 1] == a[..n][n - 1] && b[n - 1] == b[..n][n - 1];
      IngressRulesAgree(c, policy, a, b, n - 1);
    }
  }

  /** `r` is a possible list of ingress endpoints: the order of deduplicated ports is open. */
  ghost predicate IngressResolvesTo(c: Cluster, policy: NetworkPolicy, r: seq<EndpointInfo>) {
    exists ports :: ResolvedPorts(c, policy, ports) && r == IngressRules(c, policy, ports, |policy.ingress|)
  }

  method ComputeIngressEndpoints(c: Cluster, policy: NetworkPolicy) returns (r: seq<EndpointInfo>)
    ensures IngressResolvesTo(c, policy, r)
  {
    hide IngressPorts, IngressRule;
    r := [];
    ghost var ports := seq(|policy.ingress|, _ => []);
    for i := 0 to |policy.ingress|
      invariant |ports| == |policy.ingress|
      invariant forall j :: 0 <= j < i ==> IngressPorts(c, policy, policy.ingress[j].ports, ports[j])
      invariant r == IngressRules(c, policy, ports, i)
    {
      var resolved := ResolveIngressPorts(c, policy, policy.ingress[i].ports);
      IngressRulesAgree(c, policy, ports, ports[i := resolved], i);
      ports := ports[i := resolved];
      var more := IngressRuleEndpoints(c, policy.namespace, policy.ingress[i], resolved);
      r := r + more;
    }
    assert ResolvedPorts(c, policy, ports);
  }

  // ---------------------------------------------------------------- the policy's own pods

  function SelectedPod(policy: NetworkPolicy): Pod -> seq<PodEndpoint> {
    (pod: Pod) =>
      if AppliesTo(policy, pod) && !pod.hostNetwork && IsPodNetworkReady(pod)
      then [PodEndpoint(pod.hostIP, GetPodIP(pod), pod.name, pod.namespace)] else []
  }

  function SelectedPods(c: Cluster, policy: NetworkPolicy): seq<PodEndpoint> { FlatMap(SelectedPod(policy), c.pods) }

  method ComputePodSelectorEndpoints(c: Cluster, policy: NetworkPolicy) returns (r: seq<PodEndpoint>)
    ensures r == SelectedPods(c, policy)
  {
    hide FlatMap, Matches, IsPodNetworkReady, GetPodIP;
    r := [];
    FlatMapStart(SelectedPod(policy), c.pods);
    for i := 0 to |c.pods|
      invariant r == FlatMap(SelectedPod(policy), c.pods[..i])
    {
      FlatMapSnoc(SelectedPod(policy), c.pods, i);
      var pod := c.pods[i];
      if AppliesTo(policy, pod) {
        if !pod.hostNetwork {
          if IsPodNetworkReady(pod) {
            r := r + [PodEndpoint(pod.hostIP, GetPodIP(pod), pod.name, pod.namespace)];
          }
        }
      }
    }
  }
}
