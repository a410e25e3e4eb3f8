/** Traffic to a published ClusterIP port cannot reach a pod port that the policy forbids. */
module ServicePorts {
  import opened Basics
  import opened Flattening
  import opened Labels
  import opened PolicyInfo
  import opened Kubernetes
  import opened Endpoints
  import opened PolicyMeaning
  import opened Lookups
  import opened EgressEndpoints
  import opened IngressExactness
  import opened ServiceWays

  /** Service ports differ in port or protocol, as the API server enforces. */
  predicate DistinctServicePorts(svc: Service) {
    forall i, j :: 0 <= i < j < |svc.ports| ==>
      svc.ports[i].port != svc.ports[j].port
      || GivenProtocol(svc.ports[i].protocol) != GivenProtocol(svc.ports[j].protocol)
  }

  predicate NonEmptyTargetNames(svc: Service) {
    forall sp | sp in svc.ports :: sp.targetPort.Name? ==> sp.targetPort.name != ""
  }

  lemma SamePort(svc: Service, a: ServicePort, b: ServicePort)
    requires DistinctServicePorts(svc) && a in svc.ports && b in svc.ports
    requires a.port == b.port && GivenProtocol(a.protocol) == GivenProtocol(b.protocol)
    ensures a == b
  {
    var i :| 0 <= i < |svc.ports| && svc.ports[i] == a;
    var j :| 0 <= j < |svc.ports| && svc.ports[j] == b;
    assert i < j || j < i || i == j;
  }

  /** The matched service port targets the number itself, or a name. */
  lemma MatchedPort(pods: seq<Pod>, svc: Service, n: int, protocol: string, listen: int)
    requires MatchingServicePort(pods, svc, Number(n), protocol) == Some(listen)
    ensures exists sp | sp in svc.ports ::
              sp.port == listen && sp.protocol == protocol && (sp.targetPort == Number(n) || sp.targetPort.Name?)
  {
    if LookupServiceListenPort(svc, Number(n), protocol).Some? {
      var sp :| sp in svc.ports && ListenPortByTarget(Number(n), protocol)(sp) == Some(listen);
    } else {
      var pod :| pod in pods && ListenPortOn(svc, Number(n), protocol)(pod) == Some(listen);
      var found := LookupContainerPortAndName(pod, Number(n), protocol);
      assert found.Some? && found.value.0 == n;
      var sp :| sp in svc.ports && ListenPortByContainer(n, found.value.1, protocol)(sp) == Some(listen);
    }
  }

  /** Without bypass, a named target port is served on permitted numbers by every backing pod. */
  lemma NoBypass(pods: seq<Pod>, svc: Service, sp: ServicePort, ports: seq<PolicyPort>, pod: Pod, number: int)
    requires DistinctServicePorts(svc) && sp in svc.ports && pod in pods
    requires sp.targetPort.Name? && sp.targetPort.name != ""
    requires !HasTargetPortBypass(pods, svc, sp.port, GivenProtocol(sp.protocol), ports)
    requires DeliversTo(pod, sp, number)
    ensures Permits(ports, GivenProtocol(sp.protocol), number)
  {
    var protocol, name := GivenProtocol(sp.protocol), sp.targetPort.name;
    hide ServesForbidden, Permits, FirstDeclared;
    ProtocolWords();
    BypassMeaning(pods, svc, sp.port, protocol, ports);
    OnlyNamedAt(svc, sp);
    ServedPermitted(pod, name, protocol, ports, number);
  }

  /** A service port with a named target is the only one at its port and protocol. */
  lemma OnlyNamedAt(svc: Service, sp: ServicePort)
    requires DistinctServicePorts(svc) && sp in svc.ports && sp.targetPort.Name?
    ensures exists j: nat :: FirstOf(NamedAt(sp.port, GivenProtocol(sp.protocol)), svc.ports, j) && svc.ports[j] == sp
  {
    var j: nat :| j < |svc.ports| && svc.ports[j] == sp;
    assert FirstOf(NamedAt(sp.port, GivenProtocol(sp.protocol)), svc.ports, j);
  }

  lemma ServedPermitted(pod: Pod, name: string, protocol: string, ports: seq<PolicyPort>, number: int)
    requires !ServesForbidden(pod, name, protocol, ports)
    requires exists cp: ContainerPort :: FirstDeclared(pod, Serving(name, protocol), cp) && cp.containerPort == number
    ensures Permits(ports, protocol, number)
  {
    hide Permits, FirstDeclared;
  }

  /** For every ClusterIP port that a numeric policy port without a range contributes: on every
      pod behind the service, the port that traffic is delivered to is covered by the rule. */
  lemma TargetPortAgreement(
    c: Cluster, svc: Service, ports: seq<PolicyPort>, p: PolicyPort, e: Port, sp: ServicePort, pod: Pod, number: int, t: Target)
    requires DistinctServicePorts(svc) && NonEmptyTargetNames(svc)
    requires p in ports && p.port.Some? && p.port.value.Number? && p.endPort.None?
    requires e in ClusterIPPort(BackingPods(c, svc), svc, ports)(p)
    requires sp in svc.ports && e.port == Some(sp.port) && e.protocol == Some(GivenProtocol(sp.protocol))
    requires pod in c.pods && Behind(svc, pod) && DeliversTo(pod, sp, number)
    ensures CoveredNumerically(ports, Flow(t, GivenProtocol(sp.protocol), number))
  {
    var pods, protocol, n := BackingPods(c, svc), ProtocolOf(p), p.port.value.number;
    ProtocolWords();
    BehindInOrder(c.pods, svc);
    hide MatchingServicePort, HasTargetPortBypass, FirstDeclared, FlatMap, PodsBehind, Behind, CoveredNumerically;
    MatchedPort(pods, svc, n, protocol, sp.port);
    var matched :| matched in svc.ports && matched.port == sp.port && matched.protocol == protocol
                   && (matched.targetPort == Number(n) || matched.targetPort.Name?);
    SamePort(svc, sp, matched);
    if sp.targetPort.Name? {
      NoBypass(pods, svc, sp, ports, pod, number);
    } else {
      NumberCovers(ports, p, n, protocol);
    }
    AnyTarget(ports, protocol, number, t);
  }

  lemma NumberCovers(ports: seq<PolicyPort>, p: PolicyPort, n: int, protocol: string)
    requires p in ports && p.port == Some(Number(n)) && p.endPort.None? && ProtocolOf(p) == protocol
    ensures Permits(ports, protocol, n)
  {
    assert CoversNumerically(p, Flow(Address(""), protocol, n));
  }

  /** Coverage by numbers does not look at the target. */
  lemma AnyTarget(ports: seq<PolicyPort>, protocol: string, number: int, t: Target)
    ensures Permits(ports, protocol, number) <==> CoveredNumerically(ports, Flow(t, protocol, number))
  {
    AllowedMeaning(number, protocol, ports, t);
    AllowedMeaning(number, protocol, ports, Address(""));
  }

  /** The same for everything that is published for a service. */
  lemma PublishedPortsAgree(
    c: Cluster, namespace: string, selector: Option<LabelSelector>, ports: seq<PolicyPort>, svc: Service,
    rule: EndpointInfo, e: Port, sp: ServicePort, pod: Pod, number: int, t: Target)
    requires DistinctServicePorts(svc) && NonEmptyTargetNames(svc)
    requires forall p | p in ports :: p.port.Some? && p.port.value.Number? && p.endPort.None?
    requires rule in ServiceEndpoint(c, namespace, selector, ports)(svc) && e in rule.ports
    requires sp in svc.ports && e.port == Some(sp.port) && e.protocol == Some(GivenProtocol(sp.protocol))
    requires pod in c.pods && Behind(svc, pod) && DeliversTo(pod, sp, number)
    ensures CoveredNumerically(ports, Flow(t, GivenProtocol(sp.protocol), number))
  {
    hide BackingPods, FlatMap, DeliversTo, CoveredNumerically, DistinctServicePorts, NonEmptyTargetNames, Behind;
    var each := ClusterIPPort(BackingPods(c, svc), svc, ports);
    FlatMapMembers(each, ports, e);
    var p :| p in ports && e in each(p);
    TargetPortAgreement(c, svc, ports, p, e, sp, pod, number, t);
  }

  // ---------------------------------------------------------------- why names must not be empty

  /** The policy port is published for the service, yet its traffic arrives at a port that the
      policy port does not allow. */
  ghost predicate Escapes(c: Cluster, svc: Service, p: PolicyPort, e: Port, pod: Pod, sp: ServicePort, number: int) {
    && DistinctServicePorts(svc) && sp in svc.ports && pod in c.pods && Behind(svc, pod)
    && p.port.Some? && p.port.value.Number? && p.endPort.None?
    && e in ClusterIPPort(BackingPods(c, svc), svc, [p])(p)
    && e.port == Some(sp.port) && e.protocol == Some(GivenProtocol(sp.protocol))
    && DeliversTo(pod, sp, number) && forall t :: !CoveredNumerically([p], Flow(t, GivenProtocol(sp.protocol), number))
  }

  lemma UnnamedPorts(pod: Pod, c: Container, other: ContainerPort, web: ContainerPort)
    requires pod.containers == [c] && c.ports == [other, web]
    requires other == ContainerPort("", 9999, "TCP") && web == ContainerPort("", 80, "TCP")
    ensures LookupContainerPortAndName(pod, Number(80), "TCP") == Some((80, ""))
    ensures FirstNamedPort(pod, "", "TCP") == Some(other)
  {
    FlatMapOne(PortsOfContainer(), c);
    hide FlatMap, FirstSome;
    FirstOfTwo(MatchContainerPort(Number(80), "TCP"), other, web);
    FirstOfTwo(NamedContainerPort("", "TCP"), other, web);
  }

  lemma UnnamedTarget(pod: Pod, svc: Service, sp: ServicePort, p: PolicyPort)
    requires LookupContainerPortAndName(pod, Number(80), "TCP") == Some((80, ""))
    requires svc.ports == [sp] && sp == ServicePort(8080, "TCP", Name(""))
    requires p == PolicyPort(None, Some(Number(80)), None)
    ensures ClusterIPPort([pod], svc, [p])(p) == [Port(Some("TCP"), Some(8080), None)]
  {
    hide FirstSome, LookupContainerPortAndName, FirstNamedPort;
    FirstOfOne(ListenPortByTarget(Number(80), "TCP"), sp);
    FirstOfOne(ListenPortByContainer(80, "", "TCP"), sp);
    FirstOfOne(ListenPortOn(svc, Number(80), "TCP"), pod);
    FirstOfOne(NamedTargetPort(8080, "TCP"), sp);
  }

  /** An empty target-port name escapes the bypass check: port 80 is allowed, the service is
      published, and its traffic arrives at port 9999. */
  lemma EmptyTargetNameEscapes()
    ensures exists c, svc, p, e, pod, sp, number :: Escapes(c, svc, p, e, pod, sp, number)
  {
    var p, sp := PolicyPort(None, Some(Number(80)), None), ServicePort(8080, "TCP", Name(""));
    var svc := Service("ns", "svc", Some(map[]), "10.0.0.1", [sp]);
    var other, web := ContainerPort("", 9999, "TCP"), ContainerPort("", 80, "TCP");
    var container := Container("c", [other, web]);
    var pod := Pod("ns", "pod", map[], "10.1.0.1", "", "10.2.0.1", Running, false, [container]);
    var c := Cluster([], [pod], [svc], []);
    hide FlatMap, FirstSome, LookupContainerPortAndName, FirstNamedPort, MatchingServicePort, HasTargetPortBypass, ClusterIPPort;
    FlatMapOne(BackingPod(svc), pod);
    UnnamedPorts(pod, container, other, web);
    UnnamedTarget(pod, svc, sp, p);
    ServingLookup(pod, "", "TCP");
    hide FirstDeclared;
    assert DeliversTo(pod, sp, 9999);
    assert Escapes(c, svc, p, Port(Some("TCP"), Some(8080), None), pod, sp, 9999);
  }
}
