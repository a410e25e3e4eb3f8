/** Ingress resolution is exact: the resolved rules admit precisely the traffic that the
    policy's ingress rules describe. */
module IngressExactness {
  import opened Basics
  import opened Flattening
  import opened Labels
  import opened PolicyInfo
  import opened Kubernetes
  import opened Endpoints
  import opened PolicyMeaning
  import opened Lookups
  import opened Framing
  import opened Combine

  // ---------------------------------------------------------------- what a policy describes

  /** Every address is an IPv4 or an IPv6 address. */
  ghost predicate Universal(net: Network) {
    forall ip :: net.contains("0.0.0.0/0", ip) || net.contains("::/0", ip)
  }

  ghost predicate InSelectedNamespace(c: Cluster, selector: LabelSelector, namespace: string) {
    exists n :: n in c.namespaces && n.name == namespace && Matches(selector, n.labels)
  }

  ghost predicate PeerSelects(c: Cluster, policyNamespace: string, peer: Peer, pod: Pod) {
    && (if peer.namespaceSelector.None? then pod.namespace == policyNamespace
        else InSelectedNamespace(c, peer.namespaceSelector.value, pod.namespace))
    && Selected(peer.podSelector, pod.labels)
  }

  ghost predicate BlockCovers(net: Network, b: IPBlock, ip: string) {
    net.contains(b.cidr, ip) && forall x | x in b.except :: !net.contains(x, ip)
  }

  /** The address is in the peer's block, or belongs to a ready pod that the peer selects. */
  ghost predicate PeerCovers(net: Network, c: Cluster, policyNamespace: string, peer: Peer, ip: string) {
    if peer.ipBlock.Some? then BlockCovers(net, peer.ipBlock.value, ip)
    else exists pod :: pod in c.pods && PeerSelects(c, policyNamespace, peer, pod)
                       && Ready(pod) && net.contains(AddressOf(pod), ip)
  }

  /** A rule without peers is about every address. */
  ghost predicate SourceAllowed(net: Network, c: Cluster, policyNamespace: string, rule: Rule, t: Target) {
    && t.Address?
    && (rule.peers.None? || exists peer :: peer in rule.peers.value && PeerCovers(net, c, policyNamespace, peer, t.ip))
  }

  predicate InRange(port: int, low: int, endPort: Option<int>) {
    match endPort case None => port == low case Some(high) => low <= port <= high
  }

  /** The first container port of the pod with this name and the protocol of the flow covers it. */
  ghost predicate NameCovers(pod: Pod, name: string, endPort: Option<int>, f: Flow) {
    exists cp: ContainerPort :: FirstDeclared(pod, Called(name, f.protocol), cp) && InRange(f.port, cp.containerPort, endPort)
  }

  /** The policy port covers the flow, its name read on `pod`. */
  ghost predicate CoversOn(pod: Pod, p: PolicyPort, f: Flow) {
    && f.protocol == ProtocolOf(p)
    && match p.port
       case None => true
       case Some(Number(n)) => InRange(f.port, n, p.endPort)
       case Some(Name(name)) => NameCovers(pod, name, p.endPort, f)
  }

  /** The policy port covers the flow without looking at any pod. */
  ghost predicate CoversNumerically(p: PolicyPort, f: Flow) {
    && f.protocol == ProtocolOf(p)
    && (p.port.None? || (p.port.value.Number? && InRange(f.port, p.port.value.number, p.endPort)))
  }

  ghost predicate SomeCoversOn(pod: Pod, ports: seq<PolicyPort>, f: Flow) {
    exists p :: p in ports && CoversOn(pod, p, f)
  }

  ghost predicate CoveredOnDestination(c: Cluster, policy: NetworkPolicy, ports: seq<PolicyPort>, f: Flow) {
    exists pod :: pod in c.pods && Governs(policy, pod) && Ready(pod) && SomeCoversOn(pod, ports, f)
  }

  ghost predicate CoveredNumerically(ports: seq<PolicyPort>, f: Flow) {
    exists p :: p in ports && CoversNumerically(p, f)
  }

  /** Some port is a name. */
  ghost predicate SomeName(ports: seq<PolicyPort>) {
    exists p :: p in ports && p.port.Some? && p.port.value.Name?
  }

  /** Every port is a number, or none at all. */
  ghost predicate NoName(ports: seq<PolicyPort>) {
    forall p | p in ports :: p.port.Some? ==> p.port.value.Number?
  }

  /** As soon as one port is a name, all are read on the ready pods that the policy applies to. */
  ghost predicate PortAllowed(c: Cluster, policy: NetworkPolicy, ports: seq<PolicyPort>, f: Flow) {
    || ports == []
    || (SomeName(ports) && CoveredOnDestination(c, policy, ports, f))
    || (NoName(ports) && CoveredNumerically(ports, f))
  }

  ghost predicate RuleAllows(net: Network, c: Cluster, policy: NetworkPolicy, rule: Rule, f: Flow) {
    SourceAllowed(net, c, policy.namespace, rule, f.target) && PortAllowed(c, policy, rule.ports, f)
  }

  ghost predicate PolicyAllowsIngress(net: Network, c: Cluster, policy: NetworkPolicy, f: Flow) {
    exists rule :: rule in policy.ingress && RuleAllows(net, c, policy, rule, f)
  }

  predicate CleanPolicyPorts(ports: seq<PolicyPort>) {
    forall p | p in ports :: '@' !in ProtocolOf(p)
  }

  predicate CleanIngressPorts(policy: NetworkPolicy) {
    forall rule | rule in policy.ingress :: CleanPolicyPorts(rule.ports)
  }

  // ---------------------------------------------------------------- ports

  lemma CidrPortsMeaning(ports: seq<PolicyPort>, f: Flow)
    ensures SomePortAdmits(FlatMap(CidrPort(), ports), f) <==> CoveredNumerically(ports, f)
  {
    var all := FlatMap(CidrPort(), ports);
    hide FlatMap;
    if q :| q in all && PortAdmits(q, f) {
      FlatMapMembers(CidrPort(), ports, q);
      var p :| p in ports && q in CidrPort()(p);
      assert CoversNumerically(p, f);
    }
    if p :| p in ports && CoversNumerically(p, f) {
      var q := CidrPort()(p)[0];
      FlatMapMembers(CidrPort(), ports, q);
      assert q in all && PortAdmits(q, f);
    }
  }

  lemma PodPortMeaning(pod: Pod, p: PolicyPort, f: Flow)
    ensures SomePortAdmits(PodPort(pod)(p), f) <==> CoversOn(pod, p, f)
  {
    var ports := PodPort(pod)(p);
    assert |ports| <= 1;
    hide FirstDeclared, NoneDeclared, LookupContainerPortAndName;
    if p.port.Some? && p.port.value.Name? {
      NamedLookup(pod, p.port.value.name, ProtocolOf(p));
      NamePortMeaning(pod, p, f);
    }
    if ports != [] {
      assert SomePortAdmits(ports, f) <==> PortAdmits(ports[0], f);
    }
  }

  lemma NamePortMeaning(pod: Pod, p: PolicyPort, f: Flow)
    requires p.port.Some? && p.port.value.Name?
    ensures var found := LookupContainerPortAndName(pod, p.port.value, ProtocolOf(p));
            f.protocol == ProtocolOf(p) ==>
              (NameCovers(pod, p.port.value.name, p.endPort, f) <==> found.Some? && InRange(f.port, found.value.0, p.endPort))
  {
    var name := p.port.value.name;
    hide LookupContainerPortAndName, FirstDeclared, NoneDeclared;
    NamedLookup(pod, name, ProtocolOf(p));
    var found := LookupContainerPortAndName(pod, p.port.value, ProtocolOf(p));
    if found.Some? {
      assert found == Some((found.value.0, found.value.1));
    }
    if f.protocol == ProtocolOf(p) && NameCovers(pod, name, p.endPort, f) {
      var cp: ContainerPort :| FirstDeclared(pod, Called(name, f.protocol), cp) && InRange(f.port, cp.containerPort, p.endPort);
      assert found == Some((cp.containerPort, name));
    }
  }

  lemma DestinationMeaning(c: Cluster, policy: NetworkPolicy, ports: seq<PolicyPort>, f: Flow)
    ensures SomePortAdmits(FlatMap(DestinationPorts(policy, ports), c.pods), f) <==> CoveredOnDestination(c, policy, ports, f)
  {
    var each := DestinationPorts(policy, ports);
    PodWords();
    hide FlatMap, PortAdmits, CoversOn, AppliesTo, Governs, IsPodNetworkReady, Ready;
    if q :| q in FlatMap(each, c.pods) && PortAdmits(q, f) {
      FlatMapMembers(each, c.pods, q);
      var pod :| pod in c.pods && q in each(pod);
      FlatMapMembers(PodPort(pod), ports, q);
      var p :| p in ports && q in PodPort(pod)(p);
      PodPortMeaning(pod, p, f);
      assert SomeCoversOn(pod, ports, f);
    }
    if CoveredOnDestination(c, policy, ports, f) {
      var pod :| pod in c.pods && Governs(policy, pod) && Ready(pod) && SomeCoversOn(pod, ports, f);
      var p :| p in ports && CoversOn(pod, p, f);
      PodPortMeaning(pod, p, f);
      var q :| q in PodPort(pod)(p) && PortAdmits(q, f);
      FlatMapMembers(PodPort(pod), ports, q);
      FlatMapMembers(each, c.pods, q);
    }
  }

  /** A port as the resolver makes it: an explicit protocol without the key's delimiter. */
  predicate Textual(p: Port) { p.protocol.Some? && '@' !in p.protocol.value }

  lemma PortTextInjective(p: Port, q: Port)
    requires Textual(p) && Textual(q) && PortText(p) == PortText(q)
    ensures p == q
  {
    var s := [p.protocol.value, NumberText(p.port), NumberText(p.endPort)];
    var t := [q.protocol.value, NumberText(q.port), NumberText(q.endPort)];
    FrameThree('@', s[0], s[1], s[2]);
    FrameThree('@', t[0], t[1], t[2]);
    assert PortText(p) + "@" == Frame('@', s) && PortText(q) + "@" == Frame('@', t);
    FrameInjective('@', s, t);
    assert s[0] == t[0] && s[1] == t[1] && s[2] == t[2];
    NumberTextInjective(p.port, q.port);
    NumberTextInjective(p.endPort, q.endPort);
  }

  lemma {:induction false} PortsByTextExact(ports: seq<Port>)
    requires forall p | p in ports :: Textual(p)
    ensures forall k | k in PortsByText(ports) :: PortsByText(ports)[k] in ports && PortText(PortsByText(ports)[k]) == k
    ensures forall p | p in ports :: PortText(p) in PortsByText(ports) && PortsByText(ports)[PortText(p)] == p
  {
    hide PortText;
    if ports != [] {
      var init, last := ports[..|ports| - 1], ports[|ports| - 1];
      PortsByTextExact(init);
      assert ports == init + [last];
      forall p | p in ports && PortText(p) == PortText(last) ensures p == last {
        PortTextInjective(p, last);
      }
    }
  }

  /** Deduplication drops repetitions and nothing else. */
  lemma DedupExact(ports: seq<Port>, r: seq<Port>)
    requires DedupedFrom(ports, r) && (forall p | p in ports :: Textual(p))
    ensures forall p :: p in r <==> p in ports
    ensures forall i, j :: 0 <= i < j < |r| ==> r[i] != r[j]
  {
    hide *;
    PortsByTextExact(ports);
    var m := PortsByText(ports);
    var order := DedupOrder(ports, r);
    forall p | p in ports ensures p in r {
      assert PortText(p) in order;
      var i :| 0 <= i < |order| && order[i] == PortText(p);
      assert r[i] == p;
    }
    forall p | p in r ensures p in ports {
      var i :| 0 <= i < |r| && r[i] == p;
      assert order[i] in m;
    }
    forall i, j | 0 <= i < j < |r| ensures r[i] != r[j] {
      assert order[i] != order[j] && order[i] in m && order[j] in m;
    }
  }

  /** The keys in the order in which their ports are listed. */
  lemma DedupOrder(ports: seq<Port>, r: seq<Port>) returns (order: seq<string>)
    requires DedupedFrom(ports, r)
    ensures |order| == |r| && (forall i :: 0 <= i < |r| ==> order[i] in PortsByText(ports) && r[i] == PortsByText(ports)[order[i]])
    ensures forall k :: k in order <==> k in PortsByText(ports)
    ensures forall i, j :: 0 <= i < j < |order| ==> order[i] != order[j]
  {
    var m := PortsByText(ports);
    hide PortsByText;
    order :| Lists(order, m.Keys) && (forall k | k in order :: k in m) && r == Lookup(m, order);
    ListsMembers(order, m.Keys);
  }

  lemma DestinationTextual(c: Cluster, policy: NetworkPolicy, ports: seq<PolicyPort>)
    requires CleanPolicyPorts(ports)
    ensures forall q | q in FlatMap(DestinationPorts(policy, ports), c.pods) :: Textual(q)
  {
    var each := DestinationPorts(policy, ports);
    hide FlatMap, AppliesTo, IsPodNetworkReady;
    forall q | q in FlatMap(each, c.pods) ensures Textual(q) {
      FlatMapMembers(each, c.pods, q);
      var pod :| pod in c.pods && q in each(pod);
      FlatMapMembers(PodPort(pod), ports, q);
      var p :| p in ports && q in PodPort(pod)(p);
    }
  }

  lemma NoPorts(c: Cluster, policy: NetworkPolicy, ports: seq<PolicyPort>, r: seq<Port>)
    requires IngressPorts(c, policy, ports, r) && ports == []
    ensures r == []
  {
  }

  /** As soon as one port of the rule is a name, the resolved ports admit what any of its ports
      covers on any ready pod that the policy applies to. */
  lemma NamedRuleAdmits(
    c: Cluster, policy: NetworkPolicy, ports: seq<PolicyPort>, r: seq<Port>, name: PolicyPort, p: PolicyPort, pod: Pod, f: Flow)
    requires IngressPorts(c, policy, ports, r) && CleanPolicyPorts(ports)
    requires name in ports && name.port.Some? && name.port.value.Name?
    requires p in ports && pod in c.pods && Governs(policy, pod) && Ready(pod) && CoversOn(pod, p, f)
    ensures SomePortAdmits(r, f)
  {
    hide DedupedFrom, FlatMap, Textual, PortAdmits, Governs, Ready, CoversOn;
    assert SomeCoversOn(pod, ports, f);
    DestinationMeaning(c, policy, ports, f);
    DestinationTextual(c, policy, ports);
    DedupExact(FlatMap(DestinationPorts(policy, ports), c.pods), r);
  }

  /** Without any name the resolved ports admit what the numbers cover, pods or no pods. */
  lemma UnnamedRuleAdmits(c: Cluster, policy: NetworkPolicy, ports: seq<PolicyPort>, r: seq<Port>, f: Flow)
    requires IngressPorts(c, policy, ports, r) && NoName(ports)
    ensures SomePortAdmits(r, f) <==> CoveredNumerically(ports, f)
  {
    hide DedupedFrom, FlatMap, PortAdmits;
    CidrPortsMeaning(ports, f);
  }

  /** The resolved ports of a rule admit exactly what the rule's ports describe. */
  lemma IngressPortsMeaning(c: Cluster, policy: NetworkPolicy, ports: seq<PolicyPort>, r: seq<Port>, f: Flow)
    requires IngressPorts(c, policy, ports, r) && CleanPolicyPorts(ports) && ports != []
    ensures SomePortAdmits(r, f) <==> PortAllowed(c, policy, ports, f)
  {
    var all := FlatMap(DestinationPorts(policy, ports), c.pods);
    hide DedupedFrom, FlatMap, CoveredOnDestination, CoveredNumerically, Textual, PortAdmits;
    if NoName(ports) {
      UnnamedRuleAdmits(c, policy, ports, r, f);
    } else {
      DestinationMeaning(c, policy, ports, f);
      DestinationTextual(c, policy, ports);
      DedupExact(all, r);
    }
  }

  // ---------------------------------------------------------------- sources

  ghost predicate AdmitsAddress(net: Network, rules: seq<EndpointInfo>, ports: seq<Port>, ip: string) {
    exists e :: e in rules && e.ports == ports && e.domainName == "" && net.contains(e.cidr, ip)
                && forall x | x in e.except :: !net.contains(x, ip)
  }

  /** Rules that share their ports and have no domain name. */
  predicate Uniform(rules: seq<EndpointInfo>, ports: seq<Port>) {
    forall e | e in rules :: e.ports == ports && e.domainName == ""
  }

  lemma UniformAdmits(net: Network, rules: seq<EndpointInfo>, ports: seq<Port>, f: Flow)
    requires Uniform(rules, ports)
    ensures AdmittedBy(net, rules, f) <==>
            f.target.Address? && AdmitsAddress(net, rules, ports, f.target.ip) && PortsAdmit(ports, f)
  {
    if e :| e in rules && Admits(net, e, f) {
      assert AdmitsAddress(net, rules, ports, f.target.ip);
    }
    if f.target.Address? && AdmitsAddress(net, rules, ports, f.target.ip) && PortsAdmit(ports, f) {
      var e :| e in rules && e.ports == ports && e.domainName == "" && net.contains(e.cidr, f.target.ip)
               && forall x | x in e.except :: !net.contains(x, f.target.ip);
      assert Admits(net, e, f);
    }
  }

  lemma NamespaceListed(c: Cluster, policyNamespace: string, peer: Peer, namespace: string)
    ensures namespace in PeerNamespaces(c, policyNamespace, peer) <==>
            if peer.namespaceSelector.None? then namespace == policyNamespace
            else InSelectedNamespace(c, peer.namespaceSelector.value, namespace)
  {
    hide FlatMap, Matches;
    if peer.namespaceSelector.Some? {
      FlatMapMembers(NamespaceNamed(peer.namespaceSelector.value), c.namespaces, namespace);
    }
  }

  /** The rules that a peer contributes for pods are those of the ready pods it selects. */
  lemma PeerPods(c: Cluster, policyNamespace: string, peer: Peer, ports: seq<Port>, e: EndpointInfo)
    requires peer.ipBlock.None?
    ensures e in IngressPeer(c, policyNamespace, ports)(peer) <==>
            exists pod :: pod in c.pods && PeerSelects(c, policyNamespace, peer, pod) && Ready(pod)
                          && e == EndpointInfo(AddressOf(pod), [], ports, "")
  {
    PodWords();
    var each, namespaces := IngressNamespace(c, peer.podSelector, ports), PeerNamespaces(c, policyNamespace, peer);
    hide FlatMap, Matches, IsPodNetworkReady, Ready, GetPodIP, AddressOf, PeerNamespaces, InSelectedNamespace;
    FlatMapMembers(each, namespaces, e);
    if e in FlatMap(each, namespaces) {
      var ns :| ns in namespaces && e in each(ns);
      FlatMapMembers(IngressPod(ns, peer.podSelector, ports), c.pods, e);
      NamespaceListed(c, policyNamespace, peer, ns);
    }
    if pod :| pod in c.pods && PeerSelects(c, policyNamespace, peer, pod) && Ready(pod)
              && e == EndpointInfo(AddressOf(pod), [], ports, "") {
      NamespaceListed(c, policyNamespace, peer, pod.namespace);
      FlatMapMembers(IngressPod(pod.namespace, peer.podSelector, ports), c.pods, e);
      assert e in each(pod.namespace);
    }
  }

  lemma PeerMeaning(net: Network, c: Cluster, policyNamespace: string, peer: Peer, ports: seq<Port>, ip: string)
    ensures Uniform(IngressPeer(c, policyNamespace, ports)(peer), ports)
    ensures AdmitsAddress(net, IngressPeer(c, policyNamespace, ports)(peer), ports, ip) <==>
            PeerCovers(net, c, policyNamespace, peer, ip)
  {
    var rules := IngressPeer(c, policyNamespace, ports)(peer);
    if peer.ipBlock.Some? {
      assert rules == [BlockEndpoint(peer.ipBlock.value, ports)];
      assert rules[0] in rules;
    } else {
      hide IngressPeer, PeerSelects, Ready, AddressOf;
      forall e { PeerPods(c, policyNamespace, peer, ports, e); }
      if pod :| pod in c.pods && PeerSelects(c, policyNamespace, peer, pod)
                && Ready(pod) && net.contains(AddressOf(pod), ip) {
        assert EndpointInfo(AddressOf(pod), [], ports, "") in rules;
      }
    }
  }

  lemma PeersMeaning(net: Network, c: Cluster, policyNamespace: string, peers: seq<Peer>, ports: seq<Port>, ip: string)
    ensures var rules := FlatMap(IngressPeer(c, policyNamespace, ports), peers);
            && Uniform(rules, ports)
            && (AdmitsAddress(net, rules, ports, ip) <==>
                exists peer :: peer in peers && PeerCovers(net, c, policyNamespace, peer, ip))
  {
    var each := IngressPeer(c, policyNamespace, ports);
    hide FlatMap, IngressPeer, PeerCovers;
    forall peer { PeerMeaning(net, c, policyNamespace, peer, ports, ip); }
    forall e { FlatMapMembers(each, peers, e); }
    if peer :| peer in peers && PeerCovers(net, c, policyNamespace, peer, ip) {
      assert AdmitsAddress(net, each(peer), ports, ip);
    }
    var rules := FlatMap(each, peers);
    if AdmitsAddress(net, rules, ports, ip) {
      var e :| e in rules && e.ports == ports && e.domainName == "" && net.contains(e.cidr, ip)
               && forall x | x in e.except :: !net.contains(x, ip);
      var peer :| peer in peers && e in each(peer);
      assert AdmitsAddress(net, each(peer), ports, ip);
    }
  }

  lemma AllowAllMeaning(net: Network, ports: seq<Port>, ip: string)
    requires Universal(net)
    ensures Uniform(AllowAll(ports), ports) && AdmitsAddress(net, AllowAll(ports), ports, ip)
  {
    var rules := AllowAll(ports);
    assert rules[0] in rules && rules[1] in rules;
  }

  lemma RuleSources(net: Network, c: Cluster, policyNamespace: string, rule: Rule, ports: seq<Port>, f: Flow)
    requires Universal(net) && (|rule.ports| != 0 ==> |ports| != 0)
    ensures AdmittedBy(net, IngressRule(c, policyNamespace, rule, ports), f) <==>
            SourceAllowed(net, c, policyNamespace, rule, f.target) && PortsAdmit(ports, f)
  {
    var ip := if f.target.Address? then f.target.ip else "";
    hide Universal, AdmittedBy, AllowAll, FlatMap, IngressPeer, PeerCovers;
    UniformOrNot(net, IngressRule(c, policyNamespace, rule, ports), ports, f);
    if rule.peers.None? {
      AllowAllMeaning(net, ports, ip);
    } else {
      PeersMeaning(net, c, policyNamespace, rule.peers.value, ports, ip);
    }
  }

  lemma UniformOrNot(net: Network, rules: seq<EndpointInfo>, ports: seq<Port>, f: Flow)
    ensures Uniform(rules, ports) ==>
              (AdmittedBy(net, rules, f) <==>
               f.target.Address? && AdmitsAddress(net, rules, ports, f.target.ip) && PortsAdmit(ports, f))
  {
    if Uniform(rules, ports) {
      UniformAdmits(net, rules, ports, f);
    }
  }

  /** One resolved rule admits exactly what the rule describes. */
  lemma IngressRuleExact(net: Network, c: Cluster, policy: NetworkPolicy, rule: Rule, ports: seq<Port>, f: Flow)
    requires Universal(net) && IngressPorts(c, policy, rule.ports, ports) && CleanPolicyPorts(rule.ports)
    ensures AdmittedBy(net, IngressRule(c, policy.namespace, rule, ports), f) <==> RuleAllows(net, c, policy, rule, f)
  {
    hide IngressPorts, SourceAllowed, Universal, CleanPolicyPorts, PortAdmits;
    if rule.ports == [] {
      NoPorts(c, policy, rule.ports, ports);
      RuleSources(net, c, policy.namespace, rule, ports, f);
    } else {
      IngressPortsMeaning(c, policy, rule.ports, ports, f);
      if ports != [] {
        RuleSources(net, c, policy.namespace, rule, ports, f);
      }
    }
  }

  lemma AdmittedByConcat(net: Network, a: seq<EndpointInfo>, b: seq<EndpointInfo>, f: Flow)
    ensures AdmittedBy(net, a + b, f) <==> AdmittedBy(net, a, f) || AdmittedBy(net, b, f)
  {
    hide Admits;
    if e :| e in a && Admits(net, e, f) {
      assert e in a + b;
    }
    if e :| e in b && Admits(net, e, f) {
      assert e in a + b;
    }
  }

  lemma {:induction false} IngressRulesExact(net: Network, c: Cluster, policy: NetworkPolicy, ports: seq<seq<Port>>, n: nat, f: Flow)
    requires Universal(net) && ResolvedPorts(c, policy, ports) && CleanIngressPorts(policy) && n <= |policy.ingress|
    ensures AdmittedBy(net, IngressRules(c, policy, ports, n), f) <==>
            exists i :: 0 <= i < n && RuleAllows(net, c, policy, policy.ingress[i], f)
  {
    hide IngressPorts, Universal, AdmittedBy, IngressRule, RuleAllows, CleanPolicyPorts;
    if n == 0 {
      NothingAdmitted(net, f);
    } else {
      IngressRulesExact(net, c, policy, ports, n - 1, f);
      IngressRuleExact(net, c, policy, policy.ingress[n - 1], ports[n - 1], f);
      AdmittedByConcat(net, IngressRules(c, policy, ports, n - 1),
        IngressRule(c, policy.namespace, policy.ingress[n - 1], ports[n - 1]), f);
    }
  }

  lemma NothingAdmitted(net: Network, f: Flow)
    ensures !AdmittedBy(net, [], f)
  {
  }

  /** Ingress resolution is exact, for numeric, protocol-only and named ports. */
  lemma IngressExact(net: Network, c: Cluster, policy: NetworkPolicy, ports: seq<seq<Port>>, f: Flow)
    requires Universal(net) && ResolvedPorts(c, policy, ports) && CleanIngressPorts(policy)
    ensures AdmittedBy(net, IngressRules(c, policy, ports, |policy.ingress|), f) <==> PolicyAllowsIngress(net, c, policy, f)
  {
    hide ResolvedPorts, Universal, AdmittedBy, IngressRules, RuleAllows, CleanIngressPorts;
    IngressRulesExact(net, c, policy, ports, |policy.ingress|, f);
  }
}
