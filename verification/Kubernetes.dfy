/** The Kubernetes objects that the controller reads (pods, namespaces, services, network
    policies) and the look-ups of pkg/k8s on them. */
module Kubernetes {
  import opened Basics
  import opened Labels
  import opened Flattening

  datatype IntOrString = Number(number: int) | Name(name: string)

  datatype ContainerPort = ContainerPort(name: string, containerPort: int, protocol: string)

  datatype Container = Container(name: string, ports: seq<ContainerPort>)

  datatype Phase = Pending | Running | Succeeded | Failed | Unknown

  /** `annotatedIP` is the pod-ips annotation, "" when absent. */
  datatype Pod = Pod(namespace: string, name: string, labels: LabelSet, podIP: string, annotatedIP: string,
                     hostIP: string, phase: Phase, hostNetwork: bool, containers: seq<Container>)

  datatype Namespace = Namespace(name: string, labels: LabelSet)

  datatype ServicePort = ServicePort(port: int, protocol: string, targetPort: IntOrString)

  datatype Service = Service(namespace: string, name: string, selector: Option<LabelSet>, clusterIP: string,
                             ports: seq<ServicePort>)

  datatype PolicyPort = PolicyPort(protocol: Option<string>, port: Option<IntOrString>, endPort: Option<int>)

  datatype IPBlock = IPBlock(cidr: string, except: seq<string>)

  datatype Peer = Peer(podSelector: Option<LabelSelector>, namespaceSelector: Option<LabelSelector>,
                       ipBlock: Option<IPBlock>)

  /** `peers` is absent when the rule's From or To is nil. */
  datatype Rule = Rule(peers: Option<seq<Peer>>, ports: seq<PolicyPort>)

  datatype NetworkPolicy = NetworkPolicy(namespace: string, name: string, podSelector: LabelSelector,
                                         policyTypes: seq<string>, ingress: seq<Rule>, egress: seq<Rule>)

  datatype NamespacedName = NamespacedName(namespace: string, name: string)

  /** What the client's List and Get calls see. */
  datatype Cluster = Cluster(namespaces: seq<Namespace>, pods: seq<Pod>, services: seq<Service>,
                             policies: seq<NetworkPolicy>)

  function ProtocolOr(protocol: Option<string>): string {
    match protocol case None => "TCP" case Some(p) => p
  }

  /** An empty protocol of a service or container port stands for TCP. */
  function DefaultProtocol(protocol: string): string {
    if protocol == "" then "TCP" else protocol
  }

  // ---------------------------------------------------------------- pods

  function GetPodIP(pod: Pod): string {
    if |pod.podIP| > 0 then pod.podIP else pod.annotatedIP
  }

  predicate IsPodNetworkReady(pod: Pod) {
    |GetPodIP(pod)| > 0 && pod.phase != Succeeded && pod.phase != Failed
  }

  function PortsOfContainer(): Container -> seq<ContainerPort> { (c: Container) => c.ports }

  /** The container ports in declaration order, over all containers. */
  function ContainerPorts(pod: Pod): seq<ContainerPort> {
    FlatMap(PortsOfContainer(), pod.containers)
  }

  function MatchContainerPort(port: IntOrString, protocol: string): ContainerPort -> Option<ContainerPort> {
    (cp: ContainerPort) =>
      if cp.protocol != protocol then None
      else match port
        case Name(s) => if cp.name == s then Some(cp) else None
        case Number(n) => if cp.containerPort == n then Some(cp) else None
  }

  /** LookupContainerPortAndName: a number that no container declares stands for itself. */
  function LookupContainerPortAndName(pod: Pod, port: IntOrString, protocol: string): (r: Option<(int, string)>)
    ensures port.Number? ==> r.Some? && r.value.0 == port.number
    ensures port.Name? && r.Some? ==>
      exists cp | cp in ContainerPorts(pod) ::
        cp.protocol == protocol && cp.name == port.name && r.value == (cp.containerPort, cp.name)
  {
    match FirstSome(MatchContainerPort(port, protocol), ContainerPorts(pod))
    case Some(cp) => Some((cp.containerPort, cp.name))
    case None => if port.Number? then Some((port.number, "")) else None
  }

  function NamedContainerPort(name: string, protocol: string): ContainerPort -> Option<ContainerPort> {
    (cp: ContainerPort) =>
      if cp.name == name && DefaultProtocol(cp.protocol) == protocol then Some(cp) else None
  }

  /** firstNamedPort: the way Kubernetes itself resolves a named target port. */
  function FirstNamedPort(pod: Pod, name: string, protocol: string): Option<ContainerPort> {
    FirstSome(NamedContainerPort(name, protocol), ContainerPorts(pod))
  }

  /** Both look-ups take the first container port that fits, in declaration order. */
  lemma FirstContainerPort(pod: Pod, name: string, protocol: string, i: nat)
    requires protocol != "" && i < |ContainerPorts(pod)|
    requires ContainerPorts(pod)[i].name == name && ContainerPorts(pod)[i].protocol == protocol
    requires forall j :: 0 <= j < i ==> ContainerPorts(pod)[j].name != name
    ensures LookupContainerPortAndName(pod, Name(name), protocol) == Some((ContainerPorts(pod)[i].containerPort, name))
    ensures FirstNamedPort(pod, name, protocol) == Some(ContainerPorts(pod)[i])
  {
    hide ContainerPorts, FirstSome;
    FirstSomeIsFirst(MatchContainerPort(Name(name), protocol), ContainerPorts(pod), i);
    FirstSomeIsFirst(NamedContainerPort(name, protocol), ContainerPorts(pod), i);
  }

  // ---------------------------------------------------------------- services

  predicate IsServiceHeadless(svc: Service) {
    svc.clusterIP == "" || svc.clusterIP == "None"
  }

  /** A nil selector reads as the empty label set. */
  function SelectorSet(svc: Service): LabelSet {
    match svc.selector case None => map[] case Some(s) => s
  }

  function ListenPortByTarget(port: IntOrString, protocol: string): ServicePort -> Option<int> {
    (sp: ServicePort) => if sp.targetPort == port && sp.protocol == protocol then Some(sp.port) else None
  }

  function LookupServiceListenPort(svc: Service, port: IntOrString, protocol: string): Option<int> {
    FirstSome(ListenPortByTarget(port, protocol), svc.ports)
  }

  function ListenPortByContainer(number: int, name: string, protocol: string): ServicePort -> Option<int> {
    (sp: ServicePort) =>
      if sp.protocol != protocol then None
      else match sp.targetPort
        case Name(s) => if name == s then Some(sp.port) else None
        case Number(n) => if number == n then Some(sp.port) else None
  }

  function LookupListenPortFromPodSpec(svc: Service, pod: Pod, port: IntOrString, protocol: string): Option<int> {
    match LookupContainerPortAndName(pod, port, protocol)
    case None => None
    case Some(found) => FirstSome(ListenPortByContainer(found.0, found.1, protocol), svc.ports)
  }

  // ---------------------------------------------------------------- selectors

  /** createPodLabelSelector: no selector selects everything. */
  predicate Selects(selector: Option<LabelSelector>, labels: LabelSet) {
    selector.None? || Matches(selector.value, labels)
  }

  /** metav1.LabelSelectorAsSelector: no selector selects nothing. */
  predicate SelectsStrictly(selector: Option<LabelSelector>, labels: LabelSet) {
    selector.Some? && Matches(selector.value, labels)
  }

  function NamespaceNamed(selector: LabelSelector): Namespace -> seq<string> {
    (n: Namespace) => if Matches(selector, n.labels) then [n.name] else []
  }

  /** resolvePeerNamespaces */
  function PeerNamespaces(c: Cluster, policyNamespace: string, peer: Peer): seq<string> {
    match peer.namespaceSelector
    case None => [policyNamespace]
    case Some(selector) => FlatMap(NamespaceNamed(selector), c.namespaces)
  }
}
