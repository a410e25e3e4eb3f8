/** What pods, services and policy ports mean, by their fields: the words in which the results of
    the resolver and of the index are described. */
module PolicyMeaning {
  import opened Basics
  import opened Labels
  import opened Kubernetes

  // ---------------------------------------------------------------- pods

  /** The address in the status of the pod or, failing that, in its annotation. */
  function AddressOf(pod: Pod): string { if pod.podIP == "" then pod.annotatedIP else pod.podIP }

  /** The pod has an address and has not finished. */
  predicate Ready(pod: Pod) {
    AddressOf(pod) != "" && pod.phase in {Pending, Running, Unknown}
  }

  /** The policy applies to the pod. */
  predicate Governs(policy: NetworkPolicy, pod: Pod) {
    policy.namespace == pod.namespace && Matches(policy.podSelector, pod.labels)
  }

  /** An absent pod selector selects everything. */
  predicate Selected(selector: Option<LabelSelector>, labels: LabelSet) {
    selector.Some? ==> Matches(selector.value, labels)
  }

  // ---------------------------------------------------------------- services

  /** A service without a selector has no labels to match. */
  function LabelsOf(svc: Service): LabelSet { if svc.selector.Some? then svc.selector.value else map[] }

  /** The service has a ClusterIP. */
  predicate Exposed(svc: Service) { svc.clusterIP !in {"", "None"} }

  /** The pod has all labels that the service selects by. */
  predicate Behind(svc: Service, pod: Pod) {
    svc.namespace == pod.namespace && forall k | k in LabelsOf(svc) :: k in pod.labels && pod.labels[k] == LabelsOf(svc)[k]
  }

  /** The pods behind the service, in the order of the list. */
  function PodsBehind(pods: seq<Pod>, svc: Service): (r: seq<Pod>)
    ensures forall pod :: pod in r <==> pod in pods && Behind(svc, pod)
  {
    if pods == [] then [] else
      var init, last := pods[..|pods| - 1], pods[|pods| - 1];
      assert pods == init + [last];
      if Behind(svc, last) then PodsBehind(init, svc) + [last] else PodsBehind(init, svc)
  }

  // ---------------------------------------------------------------- protocols

  /** The protocol of a policy port, TCP when it gives none. */
  function ProtocolOf(p: PolicyPort): string { if p.protocol.Some? then p.protocol.value else "TCP" }

  /** The protocol of a service or container port, TCP when it is empty. */
  function GivenProtocol(given: string): string { if given != "" then given else "TCP" }

  // ---------------------------------------------------------------- container ports

  /** A place in the container ports of a pod: a container and a port of it. */
  datatype Place = Place(container: nat, port: nat)

  predicate Declared(pod: Pod, at: Place) {
    at.container < |pod.containers| && at.port < |pod.containers[at.container].ports|
  }

  function PortAt(pod: Pod, at: Place): ContainerPort
    requires Declared(pod, at)
  {
    pod.containers[at.container].ports[at.port]
  }

  predicate Earlier(a: Place, b: Place) {
    a.container < b.container || (a.container == b.container && a.port < b.port)
  }

  /** In the order of declaration, `cp` is the first container port of the pod that passes. */
  ghost predicate FirstDeclared(pod: Pod, test: ContainerPort -> bool, cp: ContainerPort) {
    exists at: Place :: FirstAt(pod, test, at) && PortAt(pod, at) == cp
  }

  ghost predicate FirstAt(pod: Pod, test: ContainerPort -> bool, at: Place) {
    && Declared(pod, at) && test(PortAt(pod, at))
    && forall other: Place | Declared(pod, other) && Earlier(other, at) :: !test(PortAt(pod, other))
  }

  ghost predicate NoneDeclared(pod: Pod, test: ContainerPort -> bool) {
    forall at: Place | Declared(pod, at) :: !test(PortAt(pod, at))
  }

  function Called(name: string, protocol: string): ContainerPort -> bool {
    (cp: ContainerPort) => cp.name == name && cp.protocol == protocol
  }

  function Numbered(number: int, protocol: string): ContainerPort -> bool {
    (cp: ContainerPort) => cp.containerPort == number && cp.protocol == protocol
  }

  /** How Kubernetes itself reads the name of a target port. */
  function Serving(name: string, protocol: string): ContainerPort -> bool {
    (cp: ContainerPort) => cp.name == name && GivenProtocol(cp.protocol) == protocol
  }

  lemma FirstUnique(pod: Pod, test: ContainerPort -> bool, a: ContainerPort, b: ContainerPort)
    requires FirstDeclared(pod, test, a) && FirstDeclared(pod, test, b)
    ensures a == b
  {
    var x: Place :| FirstAt(pod, test, x) && PortAt(pod, x) == a;
    var y: Place :| FirstAt(pod, test, y) && PortAt(pod, y) == b;
    assert x == y || Earlier(x, y) || Earlier(y, x);
  }

  /** Where Kubernetes delivers traffic that arrives at a service port, on one pod behind it. */
  ghost predicate DeliversTo(pod: Pod, sp: ServicePort, number: int) {
    match sp.targetPort
    case Number(n) => number == n
    case Name(name) =>
      exists cp: ContainerPort :: FirstDeclared(pod, Serving(name, GivenProtocol(sp.protocol)), cp) && cp.containerPort == number
  }
}
