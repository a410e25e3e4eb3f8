/** The listen ports of services, described by where traffic is delivered: which service ports
    lead to a policy port, and how much of that the resolver publishes. */
module ServiceListening {
  import opened Basics
  import opened Flattening
  import opened Labels
  import opened PolicyInfo
  import opened Kubernetes
  import opened Endpoints
  import opened PolicyMeaning
  import opened Lookups
  import opened EgressEndpoints
  import opened IngressExactness
  import opened ServiceWays
  import opened EgressExactness
  import opened ServicePorts

  // ---------------------------------------------------------------- where a service port leads

  /** On some backing pod the named target of the service port is a port that the rule forbids. */
  ghost predicate Diverted(pods: seq<Pod>, sp: ServicePort, ports: seq<PolicyPort>) {
    && sp.targetPort.Name?
    && exists pod, number :: pod in pods && DeliversTo(pod, sp, number) && !Permits(ports, GivenProtocol(sp.protocol), number)
  }

  /** The service port is one through which the policy port may be reached. */
  ghost predicate Serves(pods: seq<Pod>, sp: ServicePort, ports: seq<PolicyPort>, port: IntOrString, protocol: string) {
    LeadsTo(pods, sp, port, protocol) && !(port.Number? && Diverted(pods, sp, ports))
  }

  /** The flow arrives at a service port through which the policy port may be reached. */
  ghost predicate DeliversFor(c: Cluster, svc: Service, ports: seq<PolicyPort>, p: PolicyPort, f: Flow) {
    && f.protocol == ProtocolOf(p)
    && (p.port.None? ||
        exists sp :: sp in svc.ports && Serves(PodsBehind(c.pods, svc), sp, ports, p.port.value, f.protocol)
                     && InRange(f.port, sp.port, p.endPort))
  }

  /** The bypass check decides diversion of the service port that listens there. */
  lemma BypassExactly(pods: seq<Pod>, svc: Service, sp: ServicePort, ports: seq<PolicyPort>)
    requires DistinctServicePorts(svc) && NonEmptyTargetNames(svc) && sp in svc.ports
    ensures HasTargetPortBypass(pods, svc, sp.port, GivenProtocol(sp.protocol), ports) <==> Diverted(pods, sp, ports)
  {
    hide HasTargetPortBypass, Bypassed;
    BypassMeaning(pods, svc, sp.port, GivenProtocol(sp.protocol), ports);
    BypassedHere(pods, svc, sp, ports);
  }

  lemma BypassedHere(pods: seq<Pod>, svc: Service, sp: ServicePort, ports: seq<PolicyPort>)
    requires DistinctServicePorts(svc) && NonEmptyTargetNames(svc) && sp in svc.ports
    ensures Bypassed(pods, svc, sp.port, GivenProtocol(sp.protocol), ports) <==> Diverted(pods, sp, ports)
  {
    var protocol := GivenProtocol(sp.protocol);
    hide FirstDeclared, Permits;
    if Bypassed(pods, svc, sp.port, protocol, ports) {
      var j: nat :| FirstOf(NamedAt(sp.port, protocol), svc.ports, j) && svc.ports[j].targetPort.Name?
        && exists pod :: pod in pods && ServesForbidden(pod, svc.ports[j].targetPort.name, protocol, ports);
      SamePort(svc, sp, svc.ports[j]);
      var pod :| pod in pods && ServesForbidden(pod, sp.targetPort.name, protocol, ports);
      var cp: ContainerPort :| FirstDeclared(pod, Serving(sp.targetPort.name, protocol), cp) && !Permits(ports, protocol, cp.containerPort);
      assert DeliversTo(pod, sp, cp.containerPort);
    }
    if Diverted(pods, sp, ports) {
      OnlyNamedAt(svc, sp);
      var pod, number :| pod in pods && DeliversTo(pod, sp, number) && !Permits(ports, protocol, number);
      assert ServesForbidden(pod, sp.targetPort.name, protocol, ports);
    }
  }

  // ---------------------------------------------------------------- how much is published

  /** What the API server guarantees of service ports. */
  predicate RegularService(svc: Service) {
    DistinctServicePorts(svc) && NonEmptyTargetNames(svc)
  }

  predicate NamesProtocol(p: PolicyPort) { p.protocol != Some("") }

  lemma MatchedServes(c: Cluster, svc: Service, ports: seq<PolicyPort>, p: PolicyPort, sp: ServicePort)
    requires RegularService(svc) && NamesProtocol(p) && p.port.Some? && sp in svc.ports
    requires LeadsTo(PodsBehind(c.pods, svc), sp, p.port.value, ProtocolOf(p))
    ensures Serves(PodsBehind(c.pods, svc), sp, ports, p.port.value, ProtocolOf(p)) <==>
            !(p.port.value.Number? && Bypassed(PodsBehind(c.pods, svc), svc, sp.port, ProtocolOf(p), ports))
  {
    hide HasTargetPortBypass, Bypassed, Diverted, PodsBehind, DistinctServicePorts, NonEmptyTargetNames;
    BypassExactly(PodsBehind(c.pods, svc), svc, sp, ports);
    BypassMeaning(PodsBehind(c.pods, svc), svc, sp.port, GivenProtocol(sp.protocol), ports);
  }

  /** Published listen ports lead to what the policy allows. */
  lemma ListensSound(c: Cluster, svc: Service, ports: seq<PolicyPort>, p: PolicyPort, f: Flow)
    requires RegularService(svc) && NamesProtocol(p) && ListensFor(c, svc, ports, p, f)
    ensures DeliversFor(c, svc, ports, p, f)
  {
    hide Bypassed, PodsBehind, RegularService, LeadsTo, Serves, InRange, FirstWayIn;
    if p.port.Some? {
      var i: nat :| ListensAt(c, svc, ports, p, f, i);
      FirstWayLeads(PodsBehind(c.pods, svc), svc, p.port.value, f.protocol, i);
      MatchedServes(c, svc, ports, p, svc.ports[i]);
    }
  }

  /** The first way in is one through which the policy port may be reached, and what is published
      for it covers the listen port. */
  ghost predicate FirstWayCovers(c: Cluster, svc: Service, ports: seq<PolicyPort>, p: PolicyPort, listen: int)
    requires p.port.Some?
  {
    var pods, protocol := PodsBehind(c.pods, svc), ProtocolOf(p);
    exists i: nat :: FirstWayIn(pods, svc, p.port.value, protocol, i) && i < |svc.ports|
      && Serves(pods, svc.ports[i], ports, p.port.value, protocol) && InRange(listen, svc.ports[i].port, p.endPort)
  }

  /** The resolver publishes what the first way in covers. */
  lemma ListensByFirstWay(c: Cluster, svc: Service, ports: seq<PolicyPort>, p: PolicyPort, f: Flow)
    requires RegularService(svc) && NamesProtocol(p) && p.port.Some? && f.protocol == ProtocolOf(p)
    ensures ListensFor(c, svc, ports, p, f) <==> FirstWayCovers(c, svc, ports, p, f.port)
  {
    var pods, protocol := PodsBehind(c.pods, svc), ProtocolOf(p);
    hide Bypassed, PodsBehind, RegularService, LeadsTo, Serves, InRange, FirstWayIn;
    forall i: nat | FirstWayIn(pods, svc, p.port.value, protocol, i)
      ensures i < |svc.ports|
      ensures ListensAt(c, svc, ports, p, f, i) <==>
              Serves(pods, svc.ports[i], ports, p.port.value, protocol) && InRange(f.port, svc.ports[i].port, p.endPort)
    {
      FirstWayLeads(pods, svc, p.port.value, protocol, i);
      MatchedServes(c, svc, ports, p, svc.ports[i]);
    }
  }

  /** The first way in covers every service port through which the policy port may be reached,
      as far as the range of the policy port admits it at all. */
  ghost predicate AllPublished(c: Cluster, svc: Service, ports: seq<PolicyPort>, p: PolicyPort)
    requires p.port.Some?
  {
    forall sp | sp in svc.ports && Serves(PodsBehind(c.pods, svc), sp, ports, p.port.value, ProtocolOf(p)) ::
      InRange(sp.port, sp.port, p.endPort) ==> FirstWayCovers(c, svc, ports, p, sp.port)
  }

  lemma RangesNest(port: int, low: int, first: int, endPort: Option<int>)
    requires InRange(port, low, endPort) && (InRange(low, low, endPort) ==> InRange(low, first, endPort))
    ensures InRange(port, first, endPort)
  {
  }

  lemma FirstWayCoversMore(c: Cluster, svc: Service, ports: seq<PolicyPort>, p: PolicyPort, low: int, port: int)
    requires p.port.Some? && InRange(port, low, p.endPort) && FirstWayCovers(c, svc, ports, p, low)
    ensures FirstWayCovers(c, svc, ports, p, port)
  {
    var pods, protocol := PodsBehind(c.pods, svc), ProtocolOf(p);
    hide PodsBehind, Serves, InRange, FirstWayIn;
    var i: nat :| FirstWayIn(pods, svc, p.port.value, protocol, i) && i < |svc.ports|
      && Serves(pods, svc.ports[i], ports, p.port.value, protocol) && InRange(low, svc.ports[i].port, p.endPort);
    RangesNest(port, low, svc.ports[i].port, p.endPort);
  }

  lemma RangeStarts(port: int, low: int, endPort: Option<int>)
    requires InRange(port, low, endPort)
    ensures InRange(low, low, endPort)
  {
  }

  lemma ListensComplete(c: Cluster, svc: Service, ports: seq<PolicyPort>, p: PolicyPort, f: Flow)
    requires RegularService(svc) && NamesProtocol(p) && (p.port.Some? ==> AllPublished(c, svc, ports, p))
    requires DeliversFor(c, svc, ports, p, f)
    ensures ListensFor(c, svc, ports, p, f)
  {
    hide MatchingServicePort, HasTargetPortBypass, PodsBehind, RegularService, Serves, InRange, FirstWayCovers;
    if p.port.Some? {
      var sp :| sp in svc.ports && Serves(PodsBehind(c.pods, svc), sp, ports, p.port.value, f.protocol)
                && InRange(f.port, sp.port, p.endPort);
      RangeStarts(f.port, sp.port, p.endPort);
      FirstWayCoversMore(c, svc, ports, p, sp.port, f.port);
      ListensByFirstWay(c, svc, ports, p, f);
    }
  }

  /** The resolver publishes one listen port for a policy port, extended to its range. That is
      all that leads there, for every flow, exactly when the first way in covers the others. */
  lemma ListensExactly(c: Cluster, svc: Service, ports: seq<PolicyPort>, p: PolicyPort)
    requires RegularService(svc) && NamesProtocol(p) && p.port.Some?
    ensures (forall f :: ListensFor(c, svc, ports, p, f) <==> DeliversFor(c, svc, ports, p, f)) <==>
            AllPublished(c, svc, ports, p)
  {
    var pods, protocol := PodsBehind(c.pods, svc), ProtocolOf(p);
    hide MatchingServicePort, HasTargetPortBypass, PodsBehind, RegularService, Serves, FirstWayCovers, InRange, ListensFor;
    if AllPublished(c, svc, ports, p) {
      forall f ensures ListensFor(c, svc, ports, p, f) <==> DeliversFor(c, svc, ports, p, f) {
        if ListensFor(c, svc, ports, p, f) {
          ListensSound(c, svc, ports, p, f);
        }
        if DeliversFor(c, svc, ports, p, f) {
          ListensComplete(c, svc, ports, p, f);
        }
      }
    } else {
      var sp :| sp in svc.ports && Serves(pods, sp, ports, p.port.value, protocol)
                && InRange(sp.port, sp.port, p.endPort) && !FirstWayCovers(c, svc, ports, p, sp.port);
      var f := Flow(Address(""), protocol, sp.port);
      ListensByFirstWay(c, svc, ports, p, f);
      assert DeliversFor(c, svc, ports, p, f) && !ListensFor(c, svc, ports, p, f);
    }
  }

  /** At most one service port leads to the policy port. */
  ghost predicate OneWayIn(pods: seq<Pod>, svc: Service, port: IntOrString, protocol: string) {
    forall a, b | a in svc.ports && b in svc.ports :: LeadsTo(pods, a, port, protocol) && LeadsTo(pods, b, port, protocol) ==> a.port == b.port
  }

  /** Then the first way in is the only one. */
  lemma OneWayInPublished(c: Cluster, svc: Service, ports: seq<PolicyPort>, p: PolicyPort)
    requires RegularService(svc) && p.port.Some? && OneWayIn(PodsBehind(c.pods, svc), svc, p.port.value, ProtocolOf(p))
    ensures AllPublished(c, svc, ports, p)
  {
    var pods, protocol := PodsBehind(c.pods, svc), ProtocolOf(p);
    hide MatchingServicePort, PodsBehind, SameContainerPort, Diverted, FirstWayIn, DistinctServicePorts, NonEmptyTargetNames, InRange;
    MatchedExactly(pods, svc, p.port.value, protocol);
    forall sp | sp in svc.ports && Serves(pods, sp, ports, p.port.value, protocol) && InRange(sp.port, sp.port, p.endPort)
      ensures FirstWayCovers(c, svc, ports, p, sp.port)
    {
      if MatchingServicePort(pods, svc, p.port.value, protocol).None? {
        UnmatchedLeadsNowhere(pods, svc, p.port.value, protocol, sp);
      } else {
        var i: nat :| FirstWayIn(pods, svc, p.port.value, protocol, i);
        FirstWayLeads(pods, svc, p.port.value, protocol, i);
        SamePort(svc, sp, svc.ports[i]);
      }
    }
  }

  // ---------------------------------------------------------------- policies

  /** What `ServicePortAllowed` says, by where traffic is delivered. */
  ghost predicate ServicePortDescribed(c: Cluster, svc: Service, ports: seq<PolicyPort>, f: Flow) {
    ports == [] || exists p :: p in ports && DeliversFor(c, svc, ports, p, f)
  }

  ghost predicate DescribedService(net: Network, c: Cluster, policyNamespace: string, peer: Peer, ports: seq<PolicyPort>, f: Flow, ip: string) {
    exists svc :: svc in c.services && PeerSelectsService(c, policyNamespace, peer, svc)
                  && net.contains(svc.clusterIP, ip) && ServicePortDescribed(c, svc, ports, f)
  }

  ghost predicate PeerDescribed(net: Network, c: Cluster, policyNamespace: string, peer: Peer, ports: seq<PolicyPort>, f: Flow) {
    && f.target.Address?
    && if peer.ipBlock.Some? then BlockCovers(net, peer.ipBlock.value, f.target.ip) && BlockPortAllowed(ports, f)
       else || ReachesPod(net, c, policyNamespace, peer, ports, f, f.target.ip)
            || DescribedService(net, c, policyNamespace, peer, ports, f, f.target.ip)
  }

  ghost predicate EgressRuleDescribes(net: Network, c: Cluster, policyNamespace: string, rule: Rule, f: Flow) {
    if rule.peers.None? then f.target.Address? && BlockPortAllowed(rule.ports, f)
    else exists peer :: peer in rule.peers.value && PeerDescribed(net, c, policyNamespace, peer, rule.ports, f)
  }

  /** The egress traffic that the policy describes, in terms of where services deliver it. */
  ghost predicate PolicyDescribesEgress(net: Network, c: Cluster, policy: NetworkPolicy, f: Flow) {
    exists rule :: rule in policy.egress && EgressRuleDescribes(net, c, policy.namespace, rule, f)
  }

  /** What the API server guarantees of services and policy ports. */
  predicate RegularPorts(c: Cluster, policy: NetworkPolicy) {
    && (forall svc | svc in c.services :: RegularService(svc))
    && forall rule | rule in policy.egress :: forall p | p in rule.ports :: NamesProtocol(p)
  }

  /** Every listen port through which a policy port of the rule may be reached is covered by the
      first way in of some policy port of the rule, or by one that names no port. */
  ghost predicate RulePublished(c: Cluster, svc: Service, ports: seq<PolicyPort>) {
    forall p, sp, listen | p in ports && p.port.Some? && sp in svc.ports
        && Serves(PodsBehind(c.pods, svc), sp, ports, p.port.value, ProtocolOf(p)) && InRange(listen, sp.port, p.endPort) ::
      ListenCovered(c, svc, ports, ProtocolOf(p), listen)
  }

  ghost predicate ListenCovered(c: Cluster, svc: Service, ports: seq<PolicyPort>, protocol: string, listen: int) {
    exists q :: q in ports && ProtocolOf(q) == protocol && (q.port.None? || FirstWayCovers(c, svc, ports, q, listen))
  }

  /** Every service publishes all that leads to a policy port. */
  ghost predicate ServicesPublished(c: Cluster, policy: NetworkPolicy) {
    forall svc, rule | svc in c.services && rule in policy.egress :: RulePublished(c, svc, rule.ports)
  }

  /** No policy port can be reached through two listen ports of one service. */
  ghost predicate OneWayServices(c: Cluster, policy: NetworkPolicy) {
    forall svc, rule, p | svc in c.services && rule in policy.egress && p in rule.ports && p.port.Some? ::
      OneWayIn(PodsBehind(c.pods, svc), svc, p.port.value, ProtocolOf(p))
  }

  lemma RegularRule(c: Cluster, policy: NetworkPolicy, svc: Service, rule: Rule)
    requires RegularPorts(c, policy) && svc in c.services && rule in policy.egress
    ensures RegularService(svc) && forall p | p in rule.ports :: NamesProtocol(p)
  {
    hide RegularService, NamesProtocol;
  }

  /** One way in for every policy port is enough. */
  lemma OneWayPublished(c: Cluster, policy: NetworkPolicy)
    requires RegularPorts(c, policy) && OneWayServices(c, policy)
    ensures ServicesPublished(c, policy)
  {
    hide OneWayIn, RegularService, NamesProtocol, AllPublished, PodsBehind, Serves, InRange, FirstWayCovers, RegularPorts;
    forall svc, rule | svc in c.services && rule in policy.egress ensures RulePublished(c, svc, rule.ports) {
      RegularRule(c, policy, svc, rule);
      forall p | p in rule.ports && p.port.Some? ensures AllPublished(c, svc, rule.ports, p) {
        OneWayInPublished(c, svc, rule.ports, p);
      }
      AllRulePublished(c, svc, rule.ports);
    }
  }

  lemma AllRulePublished(c: Cluster, svc: Service, ports: seq<PolicyPort>)
    requires forall p | p in ports && p.port.Some? :: AllPublished(c, svc, ports, p)
    ensures RulePublished(c, svc, ports)
  {
    hide PodsBehind, Serves, InRange, FirstWayCovers;
    forall p, sp, listen | p in ports && p.port.Some? && sp in svc.ports
        && Serves(PodsBehind(c.pods, svc), sp, ports, p.port.value, ProtocolOf(p)) && InRange(listen, sp.port, p.endPort)
      ensures ListenCovered(c, svc, ports, ProtocolOf(p), listen)
    {
      RangeStarts(listen, sp.port, p.endPort);
      FirstWayCoversMore(c, svc, ports, p, sp.port, listen);
    }
  }

  lemma ListensCovered(c: Cluster, svc: Service, ports: seq<PolicyPort>, f: Flow)
    requires RegularService(svc) && forall p | p in ports :: NamesProtocol(p)
    ensures SomeListens(c, svc, ports, f) <==> ListenCovered(c, svc, ports, f.protocol, f.port)
  {
    hide RegularService, NamesProtocol, FirstWayCovers, InRange, HasTargetPortBypass, MatchingServicePort, PodsBehind;
    forall q | q in ports
      ensures ListensFor(c, svc, ports, q, f) <==>
              ProtocolOf(q) == f.protocol && (q.port.None? || FirstWayCovers(c, svc, ports, q, f.port))
    {
      if q.port.Some? && f.protocol == ProtocolOf(q) {
        ListensByFirstWay(c, svc, ports, q, f);
      }
    }
    hide ListensFor;
  }

  /** The ports of a rule are published for a service on exactly the listen ports that lead to
      them, for every flow, if and only if the first ways in cover all of these. */
  lemma RuleListensExactly(c: Cluster, svc: Service, ports: seq<PolicyPort>)
    requires RegularService(svc) && forall p | p in ports :: NamesProtocol(p)
    ensures (forall f :: ServicePortAllowed(c, svc, ports, f) <==> ServicePortDescribed(c, svc, ports, f)) <==>
            RulePublished(c, svc, ports)
  {
    hide RegularService, NamesProtocol, ListenCovered, ListensFor, InRange, PodsBehind, Serves, SomeListens;
    if RulePublished(c, svc, ports) {
      forall f ensures ServicePortAllowed(c, svc, ports, f) <==> ServicePortDescribed(c, svc, ports, f) {
        RuleListensSound(c, svc, ports, f);
        RuleListensComplete(c, svc, ports, f);
      }
    } else {
      var p, sp, listen :| p in ports && p.port.Some? && sp in svc.ports
        && Serves(PodsBehind(c.pods, svc), sp, ports, p.port.value, ProtocolOf(p)) && InRange(listen, sp.port, p.endPort)
        && !ListenCovered(c, svc, ports, ProtocolOf(p), listen);
      var f := Flow(Address(""), ProtocolOf(p), listen);
      assert DeliversFor(c, svc, ports, p, f);
      ListensCovered(c, svc, ports, f);
      assert ServicePortDescribed(c, svc, ports, f) && !ServicePortAllowed(c, svc, ports, f);
    }
  }

  lemma RuleListensSound(c: Cluster, svc: Service, ports: seq<PolicyPort>, f: Flow)
    requires RegularService(svc) && forall p | p in ports :: NamesProtocol(p)
    ensures ServicePortAllowed(c, svc, ports, f) ==> ServicePortDescribed(c, svc, ports, f)
  {
    hide RegularService, NamesProtocol, ListensFor, DeliversFor;
    if ServicePortAllowed(c, svc, ports, f) && ports != [] {
      var p :| p in ports && ListensFor(c, svc, ports, p, f);
      ListensSound(c, svc, ports, p, f);
    }
  }

  lemma RuleListensComplete(c: Cluster, svc: Service, ports: seq<PolicyPort>, f: Flow)
    requires RegularService(svc) && (forall p | p in ports :: NamesProtocol(p)) && RulePublished(c, svc, ports)
    ensures ServicePortDescribed(c, svc, ports, f) ==> ServicePortAllowed(c, svc, ports, f)
  {
    hide RegularService, NamesProtocol, ListensFor, InRange, PodsBehind, Serves, FirstWayCovers;
    if ServicePortDescribed(c, svc, ports, f) && ports != [] {
      var p :| p in ports && DeliversFor(c, svc, ports, p, f);
      ListensCovered(c, svc, ports, f);
      assert ListenCovered(c, svc, ports, f.protocol, f.port);
    }
  }

  /** The rule's service ports are published for no more than they deliver to, and for all of it
      when the first ways in cover the others. */
  ghost predicate SameServices(c: Cluster, ports: seq<PolicyPort>, f: Flow, both: bool) {
    forall svc | svc in c.services ::
      && (ServicePortAllowed(c, svc, ports, f) ==> ServicePortDescribed(c, svc, ports, f))
      && (both ==> ServicePortDescribed(c, svc, ports, f) ==> ServicePortAllowed(c, svc, ports, f))
  }

  lemma RuleServices(c: Cluster, policy: NetworkPolicy, rule: Rule, f: Flow)
    requires RegularPorts(c, policy) && rule in policy.egress
    ensures SameServices(c, rule.ports, f, ServicesPublished(c, policy))
  {
    hide RegularService, NamesProtocol, ServicePortAllowed, ServicePortDescribed, RulePublished, RegularPorts;
    forall svc | svc in c.services
      ensures ServicePortAllowed(c, svc, rule.ports, f) ==> ServicePortDescribed(c, svc, rule.ports, f)
      ensures ServicesPublished(c, policy) && ServicePortDescribed(c, svc, rule.ports, f) ==> ServicePortAllowed(c, svc, rule.ports, f)
    {
      RegularRule(c, policy, svc, rule);
      RuleListensSound(c, svc, rule.ports, f);
      if ServicesPublished(c, policy) {
        RuleListensComplete(c, svc, rule.ports, f);
      }
    }
  }

  lemma PeerServices(net: Network, c: Cluster, policyNamespace: string, peer: Peer, ports: seq<PolicyPort>, f: Flow, both: bool)
    requires SameServices(c, ports, f, both)
    ensures PeerReached(net, c, policyNamespace, peer, ports, f) ==> PeerDescribed(net, c, policyNamespace, peer, ports, f)
    ensures both && PeerDescribed(net, c, policyNamespace, peer, ports, f) ==> PeerReached(net, c, policyNamespace, peer, ports, f)
  {
    hide ServicePortAllowed, ServicePortDescribed, PeerSelectsService, ReachesPod, BlockCovers, BlockPortAllowed;
  }

  /** What the resolver lets through is traffic that the policy describes; and it is all of it
      when every service publishes all listen ports that lead to a policy port. */
  lemma EgressDescribed(net: Network, c: Cluster, policy: NetworkPolicy, f: Flow)
    requires RegularPorts(c, policy)
    ensures PolicyAllowsEgress(net, c, policy, f) ==> PolicyDescribesEgress(net, c, policy, f)
    ensures ServicesPublished(c, policy) && PolicyDescribesEgress(net, c, policy, f) ==> PolicyAllowsEgress(net, c, policy, f)
  {
    hide RegularPorts, ServicesPublished, SameServices, PeerReached, PeerDescribed, BlockPortAllowed;
    forall rule, peer | rule in policy.egress
      ensures PeerReached(net, c, policy.namespace, peer, rule.ports, f) ==> PeerDescribed(net, c, policy.namespace, peer, rule.ports, f)
      ensures ServicesPublished(c, policy) && PeerDescribed(net, c, policy.namespace, peer, rule.ports, f) ==> PeerReached(net, c, policy.namespace, peer, rule.ports, f)
    {
      RuleServices(c, policy, rule, f);
      PeerServices(net, c, policy.namespace, peer, rule.ports, f, ServicesPublished(c, policy));
    }
  }

  // ---------------------------------------------------------------- a second way in

  /** Two service ports deliver to the policy port, and only one of them is published. */
  ghost predicate HalfPublished(c: Cluster, svc: Service, p: PolicyPort, f: Flow) {
    && RegularService(svc) && NamesProtocol(p) && p.port.Some?
    && DeliversFor(c, svc, [p], p, f) && !ListensFor(c, svc, [p], p, f)
  }

  lemma FirstListenPort(svc: Service, a: ServicePort, b: ServicePort, port: IntOrString)
    requires svc.ports == [a, b] && a.protocol == "TCP" && a.targetPort == port
    ensures MatchingServicePort([], svc, port, "TCP") == Some(a.port)
  {
    FirstOfTwo(ListenPortByTarget(port, "TCP"), a, b);
    hide FirstSome;
  }

  /** Of two listen ports with the same target only the first one is published. */
  lemma SecondListenPortUnpublished()
    ensures exists c, svc, p, f :: HalfPublished(c, svc, p, f)
  {
    var port := Number(8080);
    var a, b := ServicePort(80, "TCP", port), ServicePort(443, "TCP", port);
    var svc := Service("ns", "svc", Some(map[]), "10.0.0.1", [a, b]);
    var c := Cluster([], [], [svc], []);
    var p, f := PolicyPort(None, Some(port), None), Flow(Address("10.0.0.1"), "TCP", 443);
    assert PodsBehind(c.pods, svc) == [];
    FirstListenPort(svc, a, b, port);
    hide MatchingServicePort, PodsBehind;
    assert Serves([], b, [p], port, "TCP");
    assert HalfPublished(c, svc, p, f);
  }
}
