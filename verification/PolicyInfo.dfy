/** The published objects (api/v1alpha1) and the traffic they admit. */
module PolicyInfo {
  import opened Basics

  datatype Port = Port(protocol: Option<string>, port: Option<int>, endPort: Option<int>)

  datatype EndpointInfo = EndpointInfo(cidr: string, except: seq<string>, ports: seq<Port>, domainName: string)

  datatype ClusterEndpointInfo = ClusterEndpointInfo(cidr: string, domainName: string, action: string, ports: seq<Port>)

  datatype PodEndpoint = PodEndpoint(hostIP: string, podIP: string, name: string, namespace: string)

  /** A PolicyEndpoint or ClusterPolicyEndpoint: `header` holds the scalar fields of its spec,
      `R` is the type of its rules. New objects have the name "" until the API server names them. */
  datatype PolicyObject<H, R> =
    PolicyObject(name: string, header: H, ingress: seq<R>, egress: seq<R>, pods: seq<PodEndpoint>)

  datatype Direction = Ingress | Egress

  // ---------------------------------------------------------------- traffic

  datatype Target = Address(ip: string) | Domain(fqdn: string)

  datatype Flow = Flow(target: Target, protocol: string, port: int)

  /** How addresses and domain names are matched; the controller never interprets them. */
  datatype Network = Network(contains: (string, string) -> bool, resolves: (string, string) -> bool)

  predicate PortAdmits(p: Port, f: Flow) {
    && f.protocol == (match p.protocol case None => "TCP" case Some(x) => x)
    && match p.port
       case None => true
       case Some(lo) =>
         match p.endPort
         case None => f.port == lo
         case Some(hi) => lo <= f.port <= hi
  }

  /** An empty port list means every port of every protocol. */
  ghost predicate PortsAdmit(ports: seq<Port>, f: Flow) {
    ports == [] || exists p :: p in ports && PortAdmits(p, f)
  }

  ghost predicate AddressMatches(n: Network, cidr: string, domainName: string, t: Target) {
    if domainName != "" then t.Domain? && n.resolves(domainName, t.fqdn)
    else t.Address? && n.contains(cidr, t.ip)
  }

  ghost predicate Excepted(n: Network, e: EndpointInfo, t: Target) {
    e.domainName == "" && t.Address? && exists x :: x in e.except && n.contains(x, t.ip)
  }

  ghost predicate Admits(n: Network, e: EndpointInfo, f: Flow) {
    && AddressMatches(n, e.cidr, e.domainName, f.target)
    && !Excepted(n, e, f.target)
    && PortsAdmit(e.ports, f)
  }

  ghost predicate AdmittedBy(n: Network, rules: seq<EndpointInfo>, f: Flow) {
    exists e :: e in rules && Admits(n, e, f)
  }

  // ---------------------------------------------------------------- well-formed fields

  /** Addresses and domain names contain none of the delimiters that the keys use around them. */
  predicate CleanAddress(s: string) {
    '|' !in s && ',' !in s && ' ' !in s
  }

  predicate CleanProtocol(s: string) {
    && s != "" && s != "nil"
    && '|' !in s && ':' !in s && '/' !in s && ' ' !in s && ',' !in s && '@' !in s
  }

  predicate ValidPort(p: Port) {
    && (p.protocol.Some? ==> CleanProtocol(p.protocol.value))
    && (p.port.Some? ==> p.port.value >= 1)
    && (p.endPort.Some? ==> p.endPort.value >= 1)
  }

  predicate ValidPorts(ports: seq<Port>) {
    forall p | p in ports :: ValidPort(p)
  }

  /** Exactly one of address and domain name; a domain name has no exceptions. */
  predicate ValidRule(e: EndpointInfo) {
    && CleanAddress(e.cidr) && CleanAddress(e.domainName)
    && (forall x | x in e.except :: CleanAddress(x))
    && ValidPorts(e.ports)
    && (e.domainName == "" <==> e.cidr != "")
    && (e.domainName != "" ==> e.except == [])
  }

  predicate ValidRules(es: seq<EndpointInfo>) {
    forall e | e in es :: ValidRule(e)
  }

  predicate ValidPod(p: PodEndpoint) {
    '/' !in p.hostIP && '/' !in p.podIP && '/' !in p.name && '/' !in p.namespace
  }

  predicate ValidPods(ps: seq<PodEndpoint>) {
    forall p | p in ps :: ValidPod(p)
  }

  /** What the endpoints resolver returns for a policy. */
  datatype Resolved = Resolved(ingress: seq<EndpointInfo>, egress: seq<EndpointInfo>, pods: seq<PodEndpoint>)

  predicate ValidResolved(r: Resolved) {
    ValidRules(r.ingress) && ValidRules(r.egress) && ValidPods(r.pods)
  }
}
