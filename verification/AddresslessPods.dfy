/** Pods without an address: the event handler drops their events, and exactly which of the
    changes behind them matter to some policy. */
module AddresslessPods {
  import opened Basics
  import opened Flattening
  import opened Labels
  import opened PolicyInfo
  import opened Kubernetes
  import opened Endpoints
  import opened PolicyMeaning
  import opened Lookups
  import opened EgressEndpoints
  import opened ServicePorts
  import opened References
  import opened Dependencies
  import opened MissedChanges

  // ---------------------------------------------------------------- which dropped changes matter

  /** Some container port of the pod has a name. */
  predicate NamesPort(pod: Pod) {
    exists container | container in pod.containers :: exists cp | cp in container.ports :: cp.name != ""
  }

  /** Containers and their ports are fixed when a pod is created. */
  predicate SameContainers(ch: Change<Pod>) {
    ch.was.Some? && ch.becomes.Some? ==> ch.was.value.containers == ch.becomes.value.containers
  }

  /** The event of the change is dropped although some policy may resolve differently: a pod that
      names a port is created or deleted, or its labels change; or a ready pod loses its address. */
  predicate Slips(ch: Change<Pod>) {
    match (ch.was, ch.becomes)
    case (None, Some(z)) => NamesPort(z)
    case (Some(y), None) => NamesPort(y)
    case (Some(y), Some(z)) => Ready(y) || (y.labels != z.labels && NamesPort(z))
    case (None, None) => false
  }

  /** No version of the pod is ready. */
  ghost predicate NeverReady(ch: Change<Pod>) {
    forall z | z in Versions(ch) :: !Ready(z)
  }

  /** What the API server guarantees of services. */
  ghost predicate RegularServices(services: seq<Service>) {
    forall svc | svc in services :: DistinctServicePorts(svc) && NonEmptyTargetNames(svc)
  }

  predicate NonEmptyPortName(p: PolicyPort) { p.port != Some(Name("")) }

  /** What the API server guarantees of policy ports. */
  ghost predicate NonEmptyPortNames(rules: seq<Rule>) {
    forall rule, p | rule in rules && p in rule.ports :: NonEmptyPortName(p)
  }

  // ---------------------------------------------------------------- pods behind a service

  /** For all look-ups of listen ports and diversions, the pods `x` do what the pods `y` do. */
  ghost predicate Interchangeable(svc: Service, x: seq<Pod>, y: seq<Pod>) {
    && (forall port, protocol | LookupServiceListenPort(svc, port, protocol).None? && port != Name("") ::
          FirstSome(ListenPortOn(svc, port, protocol), x) == FirstSome(ListenPortOn(svc, port, protocol), y))
    && (forall name, protocol, ports | name != "" :: SomeDiverts(x, name, protocol, ports) <==> SomeDiverts(y, name, protocol, ports))
  }

  predicate SomeDiverts(pods: seq<Pod>, name: string, protocol: string, ports: seq<PolicyPort>) {
    exists pod | pod in pods :: Diverts(pod, name, protocol, ports)
  }

  lemma SomeDivertsParts(a: seq<Pod>, x: seq<Pod>, b: seq<Pod>, name: string, protocol: string, ports: seq<PolicyPort>)
    ensures SomeDiverts(a + x + b, name, protocol, ports) <==>
            SomeDiverts(a, name, protocol, ports) || SomeDiverts(x, name, protocol, ports) || SomeDiverts(b, name, protocol, ports)
  {
    hide Diverts;
    assert forall pod | pod in x :: pod in a + x + b;
  }

  lemma MatchedParts(svc: Service, a: seq<Pod>, x: seq<Pod>, b: seq<Pod>, port: IntOrString, protocol: string)
    ensures MatchingServicePort(a + x + b, svc, port, protocol) ==
            var f := ListenPortOn(svc, port, protocol);
            if LookupServiceListenPort(svc, port, protocol).Some? then LookupServiceListenPort(svc, port, protocol)
            else if FirstSome(f, a).Some? then FirstSome(f, a)
            else if FirstSome(f, x).Some? then FirstSome(f, x)
            else FirstSome(f, b)
  {
    hide FirstSome, LookupServiceListenPort;
    FirstSomeConcat(ListenPortOn(svc, port, protocol), a + x, b);
    FirstSomeConcat(ListenPortOn(svc, port, protocol), a, x);
  }

  /** Exchanging them changes no port of the service. */
  lemma InterchangedPorts(svc: Service, ports: seq<PolicyPort>, a: seq<Pod>, x: seq<Pod>, y: seq<Pod>, b: seq<Pod>)
    requires Interchangeable(svc, x, y) && forall p | p in ports :: NonEmptyPortName(p)
    ensures ClusterIPPorts(a + x + b, svc, ports) == ClusterIPPorts(a + y + b, svc, ports)
  {
    hide FlatMap, FirstSome, LookupServiceListenPort, MatchingServicePort, HasTargetPortBypass;
    forall p | p in ports
      ensures ClusterIPPort(a + x + b, svc, ports)(p) == ClusterIPPort(a + y + b, svc, ports)(p)
    {
      if p.port.Some? {
        var protocol := ProtocolOr(p.protocol);
        MatchedParts(svc, a, x, b, p.port.value, protocol);
        MatchedParts(svc, a, y, b, p.port.value, protocol);
        var listen := MatchingServicePort(a + x + b, svc, p.port.value, protocol);
        if listen.Some? {
          InterchangedBypass(svc, ports, a, x, y, b, listen.value, protocol);
        }
      }
    }
    FlatMapAgree(ClusterIPPort(a + x + b, svc, ports), ClusterIPPort(a + y + b, svc, ports), ports);
  }

  lemma InterchangedBypass(svc: Service, ports: seq<PolicyPort>, a: seq<Pod>, x: seq<Pod>, y: seq<Pod>, b: seq<Pod>, listen: int, protocol: string)
    requires Interchangeable(svc, x, y)
    ensures HasTargetPortBypass(a + x + b, svc, listen, protocol, ports) == HasTargetPortBypass(a + y + b, svc, listen, protocol, ports)
  {
    hide FirstSome, SomeDiverts, Diverts, LookupServiceListenPort;
    var name := FirstSome(NamedTargetPort(listen, protocol), svc.ports);
    if name.Some? && name.value != "" {
      SomeDivertsParts(a, x, b, name.value, protocol, ports);
      SomeDivertsParts(a, y, b, name.value, protocol, ports);
      BypassDef(a + x + b, svc, listen, protocol, ports, name.value);
      BypassDef(a + y + b, svc, listen, protocol, ports, name.value);
    }
  }

  lemma BypassDef(pods: seq<Pod>, svc: Service, listen: int, protocol: string, ports: seq<PolicyPort>, name: string)
    requires name != "" && FirstSome(NamedTargetPort(listen, protocol), svc.ports) == Some(name)
    ensures HasTargetPortBypass(pods, svc, listen, protocol, ports) <==> SomeDiverts(pods, name, protocol, ports)
  {
    hide FirstSome, Diverts;
  }

  lemma DeclaredPorts(pod: Pod)
    ensures forall cp :: cp in ContainerPorts(pod) <==> exists container | container in pod.containers :: cp in container.ports
  {
    hide FlatMap;
    forall cp { FlatMapMembers(PortsOfContainer(), pod.containers, cp); }
  }

  /** A pod that names no port decides nothing: numbers that it is asked for are targets that the
      service declares itself, and names it has none. */
  lemma UnnamedDecidesNothing(svc: Service, pod: Pod, port: IntOrString, protocol: string)
    requires !NamesPort(pod) && NonEmptyTargetNames(svc) && port != Name("")
    requires LookupServiceListenPort(svc, port, protocol).None?
    ensures ListenPortOn(svc, port, protocol)(pod).None?
  {
    DeclaredPorts(pod);
    hide ContainerPorts, FirstSome;
    var found := LookupContainerPortAndName(pod, port, protocol);
    if found.Some? {
      var cp := FirstSome(MatchContainerPort(port, protocol), ContainerPorts(pod));
      assert found.value.1 == "" && port == Number(found.value.0);
      forall sp | sp in svc.ports ensures ListenPortByContainer(found.value.0, "", protocol)(sp).None? {
        assert ListenPortByTarget(port, protocol)(sp).None?;
      }
    }
  }

  lemma UnnamedDivertsNothing(pod: Pod, name: string, protocol: string, ports: seq<PolicyPort>)
    requires !NamesPort(pod) && name != ""
    ensures !Diverts(pod, name, protocol, ports)
  {
    DeclaredPorts(pod);
    hide ContainerPorts, FirstSome;
  }

  lemma UnnamedInterchangeable(svc: Service, x: seq<Pod>, y: seq<Pod>)
    requires NonEmptyTargetNames(svc) && forall pod | pod in x + y :: !NamesPort(pod)
    ensures Interchangeable(svc, x, y)
  {
    hide NamesPort, NonEmptyTargetNames, Diverts, FirstSome, LookupServiceListenPort, LookupListenPortFromPodSpec;
    forall port, protocol | LookupServiceListenPort(svc, port, protocol).None? && port != Name("")
      ensures FirstSome(ListenPortOn(svc, port, protocol), x) == FirstSome(ListenPortOn(svc, port, protocol), y)
    {
      forall pod | pod in x + y ensures ListenPortOn(svc, port, protocol)(pod).None? {
        UnnamedDecidesNothing(svc, pod, port, protocol);
      }
    }
    forall name, protocol, ports | name != ""
      ensures SomeDiverts(x, name, protocol, ports) <==> SomeDiverts(y, name, protocol, ports)
    {
      forall pod | pod in x + y ensures !Diverts(pod, name, protocol, ports) {
        UnnamedDivertsNothing(pod, name, protocol, ports);
      }
    }
  }

  lemma SameContainersInterchangeable(svc: Service, y: Pod, z: Pod)
    requires y.containers == z.containers
    ensures Interchangeable(svc, [y], [z])
  {
    assert ContainerPorts(y) == ContainerPorts(z);
    hide ContainerPorts, FirstSome, LookupServiceListenPort;
    forall port, protocol ensures FirstSome(ListenPortOn(svc, port, protocol), [y]) == FirstSome(ListenPortOn(svc, port, protocol), [z]) {
      FirstOfOne(ListenPortOn(svc, port, protocol), y);
      FirstOfOne(ListenPortOn(svc, port, protocol), z);
    }
    assert forall name, protocol, ports :: Diverts(y, name, protocol, ports) <==> Diverts(z, name, protocol, ports);
  }

  lemma SameInterchangeable(svc: Service, x: seq<Pod>)
    ensures Interchangeable(svc, x, x)
  {
    hide FirstSome, LookupServiceListenPort, SomeDiverts;
  }

  /** An update that keeps the labels. */
  predicate SameLabels(ch: Change<Pod>) {
    ch.was.Some? && ch.becomes.Some? && ch.was.value.labels == ch.becomes.value.labels
  }

  lemma UnslippedUnnamed(ch: Change<Pod>)
    requires SameContainers(ch) && Happens(ch) && !Slips(ch) && !SameLabels(ch)
    ensures forall z | z in Versions(ch) :: !NamesPort(z)
  {
    hide Ready;
    if ch.was.Some? && ch.becomes.Some? {
      SameContainerPorts(ch.was.value, ch.becomes.value);
    }
    hide ContainerPorts;
  }

  lemma SameContainerPorts(y: Pod, z: Pod)
    requires y.containers == z.containers
    ensures ContainerPorts(y) == ContainerPorts(z)
  {
  }

  lemma SameLabelsBack(svc: Service, ch: Change<Pod>)
    requires SamePod(ch) && SameLabels(ch)
    ensures Backs(svc, ch.was.value) == Backs(svc, ch.becomes.value)
  {
    assert ch.was.value in Versions(ch) && ch.becomes.value in Versions(ch);
    hide Subset;
  }

  /** The versions of the pod that stand behind a service can be exchanged unless the change slips. */
  lemma VersionsInterchangeable(svc: Service, ch: Change<Pod>)
    requires SamePod(ch) && SameContainers(ch) && Happens(ch) && !Slips(ch) && NonEmptyTargetNames(svc)
    ensures Interchangeable(svc, FlatMap(BackingPod(svc), AsSeq(ch.was)), FlatMap(BackingPod(svc), AsSeq(ch.becomes)))
  {
    hide Interchangeable, Slips, NonEmptyTargetNames, Backs, NamesPort, FlatMap, SamePod;
    BackingVersion(svc, ch.was);
    BackingVersion(svc, ch.becomes);
    if SameLabels(ch) {
      SameLabelsBack(svc, ch);
      SameInterchangeable(svc, []);
      SameContainersInterchangeable(svc, ch.was.value, ch.becomes.value);
    } else {
      UnslippedUnnamed(ch);
      assert ch.was.Some? ==> ch.was.value in Versions(ch);
      assert ch.becomes.Some? ==> ch.becomes.value in Versions(ch);
      UnnamedInterchangeable(svc, FlatMap(BackingPod(svc), AsSeq(ch.was)), FlatMap(BackingPod(svc), AsSeq(ch.becomes)));
    }
  }

  lemma BackingVersion(svc: Service, x: Option<Pod>)
    ensures FlatMap(BackingPod(svc), AsSeq(x)) == if x.Some? && Backs(svc, x.value) then [x.value] else []
  {
    hide Backs;
    if x.Some? {
      FlatMapOne(BackingPod(svc), x.value);
    }
  }

  // ---------------------------------------------------------------- resolutions that stay

  lemma BackingParts(svc: Service, a: seq<Pod>, x: Option<Pod>, b: seq<Pod>)
    ensures FlatMap(BackingPod(svc), a + AsSeq(x) + b) ==
            FlatMap(BackingPod(svc), a) + FlatMap(BackingPod(svc), AsSeq(x)) + FlatMap(BackingPod(svc), b)
  {
    hide FlatMap;
    FlatMapConcat(BackingPod(svc), a + AsSeq(x), b);
    FlatMapConcat(BackingPod(svc), a, AsSeq(x));
  }

  /** The services of the cluster publish the same ports before and after. */
  ghost predicate SamePorts(c: Cluster, d: Cluster, ports: seq<PolicyPort>) {
    forall svc | svc in c.services ::
      ClusterIPPorts(BackingPods(c, svc), svc, ports) == ClusterIPPorts(BackingPods(d, svc), svc, ports)
  }

  lemma UnslippedPorts(c: Cluster, ch: Change<Pod>, ports: seq<PolicyPort>)
    requires c.pods == Before(ch) && SamePod(ch) && SameContainers(ch) && Happens(ch) && !Slips(ch)
    requires RegularServices(c.services) && forall p | p in ports :: NonEmptyPortName(p)
    ensures SamePorts(c, WithPods(c, ch), ports)
  {
    hide FlatMap, Interchangeable, ClusterIPPorts, NonEmptyTargetNames, DistinctServicePorts, SamePod, SameContainers, Slips, NonEmptyPortName;
    forall svc | svc in c.services
      ensures ClusterIPPorts(BackingPods(c, svc), svc, ports) == ClusterIPPorts(BackingPods(WithPods(c, ch), svc), svc, ports)
    {
      VersionsInterchangeable(svc, ch);
      BackingParts(svc, ch.head, ch.was, ch.tail);
      BackingParts(svc, ch.head, ch.becomes, ch.tail);
      InterchangedPorts(svc, ports, FlatMap(BackingPod(svc), ch.head), FlatMap(BackingPod(svc), AsSeq(ch.was)),
        FlatMap(BackingPod(svc), AsSeq(ch.becomes)), FlatMap(BackingPod(svc), ch.tail));
    }
  }

  lemma UnreadyNamespace(c: Cluster, ch: Change<Pod>, namespace: string, selector: Option<LabelSelector>, ports: seq<PolicyPort>)
    requires c.pods == Before(ch) && NeverReady(ch) && SamePorts(c, WithPods(c, ch), ports)
    ensures EgressNamespace(c, selector, ports)(namespace) == EgressNamespace(WithPods(c, ch), selector, ports)(namespace)
  {
    var d := WithPods(c, ch);
    PodWords();
    hide Listed, FlatMap, ClusterIPPorts, BackingPods, IsServiceHeadless, Selects, SelectorSet, IsPodNetworkReady, Ready;
    FrameChange(EgressPod(namespace, selector, ports), ch);
    FlatMapAgree(ServiceEndpoint(c, namespace, selector, ports), ServiceEndpoint(d, namespace, selector, ports), c.services);
  }

  lemma UnreadyEgressPeer(c: Cluster, ch: Change<Pod>, policyNamespace: string, peer: Peer, ports: seq<PolicyPort>)
    requires c.pods == Before(ch) && NeverReady(ch) && SamePorts(c, WithPods(c, ch), ports)
    ensures EgressPeer(c, policyNamespace, ports)(peer) == EgressPeer(WithPods(c, ch), policyNamespace, ports)(peer)
  {
    var d, namespaces := WithPods(c, ch), PeerNamespaces(c, policyNamespace, peer);
    hide FlatMap, NeverReady, SamePorts, EgressNamespace;
    forall namespace
      ensures EgressNamespace(c, peer.podSelector, ports)(namespace) == EgressNamespace(d, peer.podSelector, ports)(namespace)
    {
      UnreadyNamespace(c, ch, namespace, peer.podSelector, ports);
    }
    FlatMapAgree(EgressNamespace(c, peer.podSelector, ports), EgressNamespace(d, peer.podSelector, ports), namespaces);
  }

  lemma UnreadyIngressPeer(c: Cluster, ch: Change<Pod>, policyNamespace: string, peer: Peer, ports: seq<Port>)
    requires c.pods == Before(ch) && NeverReady(ch)
    ensures IngressPeer(c, policyNamespace, ports)(peer) == IngressPeer(WithPods(c, ch), policyNamespace, ports)(peer)
  {
    var d, namespaces := WithPods(c, ch), PeerNamespaces(c, policyNamespace, peer);
    PodWords();
    hide FlatMap, Listed, IsPodNetworkReady, Ready;
    forall namespace
      ensures IngressNamespace(c, peer.podSelector, ports)(namespace) == IngressNamespace(d, peer.podSelector, ports)(namespace)
    {
      FrameChange(IngressPod(namespace, peer.podSelector, ports), ch);
    }
    FlatMapAgree(IngressNamespace(c, peer.podSelector, ports), IngressNamespace(d, peer.podSelector, ports), namespaces);
  }

  lemma UnreadyDestinations(c: Cluster, ch: Change<Pod>, policy: NetworkPolicy)
    requires c.pods == Before(ch) && NeverReady(ch)
    ensures SameDestinations(c, WithPods(c, ch), policy)
  {
    PodWords();
    hide FlatMap, AppliesTo, IsPodNetworkReady, Ready, PodPorts;
    FrameChange(SelectedPod(policy), ch);
    forall ports ensures FlatMap(DestinationPorts(policy, ports), Before(ch)) == FlatMap(DestinationPorts(policy, ports), After(ch)) {
      FrameChange(DestinationPorts(policy, ports), ch);
    }
  }

  /** All services publish the same ports for all rules of the policy. */
  ghost predicate SamePortsFor(c: Cluster, d: Cluster, policy: NetworkPolicy) {
    forall rule | rule in policy.egress :: SamePorts(c, d, rule.ports)
  }

  /** A change of a pod that is never ready and leaves the ports of services alone changes no
      resolution. */
  lemma UnreadyFrame(c: Cluster, ch: Change<Pod>, policy: NetworkPolicy)
    requires c.pods == Before(ch) && NeverReady(ch) && SamePortsFor(c, WithPods(c, ch), policy)
    ensures EgressRules(c, policy) == EgressRules(WithPods(c, ch), policy)
    ensures forall r | ResolvesTo(c, policy, r) :: ResolvesTo(WithPods(c, ch), policy, r)
  {
    var d := WithPods(c, ch);
    hide ResolvesTo, IngressPeer, EgressPeer, SameDestinations, NeverReady, SamePorts;
    UnreadyDestinations(c, ch, policy);
    forall peer, ports ensures IngressPeer(c, policy.namespace, ports)(peer) == IngressPeer(d, policy.namespace, ports)(peer) {
      UnreadyIngressPeer(c, ch, policy.namespace, peer, ports);
    }
    forall rule, peer | rule in policy.egress
      ensures EgressPeer(c, policy.namespace, rule.ports)(peer) == EgressPeer(d, policy.namespace, rule.ports)(peer)
    {
      UnreadyEgressPeer(c, ch, policy.namespace, peer, rule.ports);
    }
    LiftEgress(c, d, policy);
    forall r | ResolvesTo(c, policy, r) ensures ResolvesTo(d, policy, r) {
      LiftResolution(c, d, policy, r);
    }
  }

  lemma UnslippedNeverReady(ch: Change<Pod>)
    requires Happens(ch) && AddressOf(EventObject(ch)) == "" && !Slips(ch)
    ensures NeverReady(ch)
  {
    hide AddressOf, NamesPort;
  }

  lemma UnslippedSamePorts(c: Cluster, ch: Change<Pod>, policy: NetworkPolicy)
    requires c.pods == Before(ch) && SamePod(ch) && SameContainers(ch) && Happens(ch) && !Slips(ch)
    requires RegularServices(c.services) && NonEmptyPortNames(policy.egress)
    ensures SamePortsFor(c, WithPods(c, ch), policy)
  {
    hide SamePod, SameContainers, Slips, RegularServices, NonEmptyPortName, SamePorts;
    forall rule | rule in policy.egress ensures SamePorts(c, WithPods(c, ch), rule.ports) {
      UnslippedPorts(c, ch, rule.ports);
    }
  }

  /** Dropping the event is harmless for every policy unless the change slips. */
  lemma DroppedPodFrame(c: Cluster, ch: Change<Pod>, policy: NetworkPolicy)
    requires c.pods == Before(ch) && SamePod(ch) && SameContainers(ch) && Happens(ch)
    requires AddressOf(EventObject(ch)) == "" && !Slips(ch)
    requires RegularServices(c.services) && NonEmptyPortNames(policy.egress)
    ensures EgressRules(c, policy) == EgressRules(WithPods(c, ch), policy)
    ensures forall r | ResolvesTo(c, policy, r) :: ResolvesTo(WithPods(c, ch), policy, r)
  {
    hide *;
    UnslippedNeverReady(ch);
    UnslippedSamePorts(c, ch, policy);
    UnreadyFrame(c, ch, policy);
  }

  /** The pod cannot be seen by any resolution in this cluster. */
  ghost predicate Silent(c: Cluster, pod: Pod) {
    !Ready(pod) && forall svc | svc in c.services :: !Behind(svc, pod)
  }

  /** Nor does a pod matter that is never ready and backs no service, whatever ports it names. */
  lemma SilentPodFrame(c: Cluster, ch: Change<Pod>, policy: NetworkPolicy)
    requires c.pods == Before(ch) && forall z | z in Versions(ch) :: Silent(c, z)
    ensures forall r | ResolvesTo(c, policy, r) :: ResolvesTo(WithPods(c, ch), policy, r)
  {
    ServiceWords();
    hide ResolvesTo, ClusterIPPorts, FlatMap, Backs, Behind, Ready;
    forall svc | svc in c.services ensures BackingPods(c, svc) == BackingPods(WithPods(c, ch), svc) {
      FrameChange(BackingPod(svc), ch);
    }
    UnreadyFrame(c, ch, policy);
  }

  // ---------------------------------------------------------------- a policy that misses the change

  /** Dropping the event is what goes wrong: services and policy are regular, the peers are proper
      and monotone, and the index would have referred the policy; yet its egress changes. */
  ghost predicate DroppedThoughSeen(c: Cluster, ch: Change<Pod>, policy: NetworkPolicy) {
    && c.pods == Before(ch) && Happens(ch) && AddressOf(EventObject(ch)) == "" && policy in c.policies
    && RegularServices(c.services) && NonEmptyPortNames(policy.egress)
    && ProperPeers(policy.egress) && MonotonePeers(policy.egress)
    && ReferredForPod(WithPods(c, ch), {}, EventObject(ch), EventFormer(ch), policy)
    && EgressRules(c, policy) != EgressRules(WithPods(c, ch), policy)
  }

  function ByLabels(labels: LabelSet): LabelSelector { LabelSelector(labels, []) }

  lemma ByLabelsMatches(labels: LabelSet)
    ensures Matches(ByLabels(labels), labels) && Monotone(ByLabels(labels)) && Subset(labels, labels)
  {
    PositiveMonotone(ByLabels(labels));
  }

  /** The policy whose only peer selects the labels of the pod. */
  function Watching(pod: Pod, ports: seq<PolicyPort>): NetworkPolicy {
    SinglePeerPolicy(pod.namespace, Peer(Some(ByLabels(pod.labels)), None, None), ports)
  }

  lemma WatchingRefers(c: Cluster, ch: Change<Pod>, pod: Pod, ports: seq<PolicyPort>)
    requires Happens(ch) && pod in Versions(ch) && SamePod(ch)
    ensures ReferredForPod(c, {}, EventObject(ch), EventFormer(ch), Watching(pod, ports))
    ensures ProperPeers(Watching(pod, ports).egress) && MonotonePeers(Watching(pod, ports).egress)
  {
    ByLabelsMatches(pod.labels);
    hide Matches, Monotone, ByLabels;
    var policy, peer := Watching(pod, ports), Peer(Some(ByLabels(pod.labels)), None, None);
    assert policy.egress == [Rule(Some([peer]), ports)] && PeersOf(policy.egress[0]) == [peer];
    assert policy.egress[0] in policy.egress && peer in PeersOf(policy.egress[0]);
    assert IsPodLabelMatchPeer(c, pod, pod.namespace, peer);
    assert IsPodReferredIn(c, pod, policy.namespace, policy.egress);
    assert EventObject(ch) in Versions(ch);
    assert pod == EventObject(ch) || EventFormer(ch) == Some(pod);
  }

  /** A change with the same versions, in a cluster without other pods. */
  function Alone(ch: Change<Pod>): Change<Pod> { Change([], ch.was, ch.becomes, []) }

  ghost predicate SlipsSomewhere(ch: Change<Pod>) {
    exists c, other: Change<Pod>, policy :: other.was == ch.was && other.becomes == ch.becomes && DroppedThoughSeen(c, other, policy)
  }

  lemma WatchingNames(pod: Pod, ports: seq<PolicyPort>)
    requires forall p | p in ports :: NonEmptyPortName(p)
    ensures NonEmptyPortNames(Watching(pod, ports).egress)
  {
    hide NonEmptyPortName, ByLabels;
    assert Watching(pod, ports).egress == [Rule(Some([Peer(Some(ByLabels(pod.labels)), None, None)]), ports)];
  }

  /** What the policy resolves to in a cluster with nothing else. */
  lemma WatchingEgress(pods: seq<Pod>, services: seq<Service>, pod: Pod, ports: seq<PolicyPort>)
    ensures EgressRules(Cluster([], pods, services, [Watching(pod, ports)]), Watching(pod, ports)) ==
            EgressNamespace(Cluster([], pods, services, []), Some(ByLabels(pod.labels)), ports)(pod.namespace)
  {
    hide EgressNamespace, EgressRules, ByLabels;
    var c := Cluster([], pods, services, [Watching(pod, ports)]);
    SinglePeer(c, pod.namespace, Peer(Some(ByLabels(pod.labels)), None, None), ports);
    OtherPoliciesSameNamespace(c, Cluster([], pods, services, []), Some(ByLabels(pod.labels)), ports, pod.namespace);
  }

  lemma AloneVersions(ch: Change<Pod>)
    ensures Before(Alone(ch)) == AsSeq(ch.was) && After(Alone(ch)) == AsSeq(ch.becomes) && Versions(Alone(ch)) == Versions(ch)
  {
  }

  /** It suffices that the peer's namespace contributes something else. */
  lemma SlipsWith(ch: Change<Pod>, pod: Pod, services: seq<Service>, ports: seq<PolicyPort>)
    requires SamePod(ch) && Happens(ch) && AddressOf(EventObject(ch)) == "" && pod in Versions(ch)
    requires RegularServices(services) && forall p | p in ports :: NonEmptyPortName(p)
    requires EgressNamespace(Cluster([], AsSeq(ch.was), services, []), Some(ByLabels(pod.labels)), ports)(pod.namespace) !=
             EgressNamespace(Cluster([], AsSeq(ch.becomes), services, []), Some(ByLabels(pod.labels)), ports)(pod.namespace)
    ensures SlipsSomewhere(ch)
  {
    var policy, a := Watching(pod, ports), Alone(ch);
    var c := Cluster([], AsSeq(ch.was), services, [policy]);
    hide EgressNamespace, ReferredForPod, EgressRules, ProperPeers, MonotonePeers, RegularServices, NonEmptyPortNames, AddressOf, SamePod, Watching, ByLabels, Before, After, Versions;
    AloneVersions(ch);
    AloneSame(ch);
    WatchingRefers(WithPods(c, a), a, pod, ports);
    WatchingNames(pod, ports);
    WatchingEgress(AsSeq(ch.was), services, pod, ports);
    WatchingEgress(AsSeq(ch.becomes), services, pod, ports);
    assert DroppedThoughSeen(c, a, policy);
  }

  lemma AloneSame(ch: Change<Pod>)
    requires SamePod(ch)
    ensures SamePod(Alone(ch))
  {
    assert Versions(Alone(ch)) == Versions(ch);
  }

  lemma OtherPoliciesSameNamespace(c: Cluster, d: Cluster, selector: Option<LabelSelector>, ports: seq<PolicyPort>, namespace: string)
    requires c.pods == d.pods && c.services == d.services
    ensures EgressNamespace(c, selector, ports)(namespace) == EgressNamespace(d, selector, ports)(namespace)
  {
    hide FlatMap, ClusterIPPorts, EgressPod, IsServiceHeadless, Selects, SelectorSet;
    FlatMapAgree(ServiceEndpoint(c, namespace, selector, ports), ServiceEndpoint(d, namespace, selector, ports), c.services);
  }

  /** Alone in its cluster, a selected pod is published while it is ready. */
  lemma AlonePublished(pod: Pod, ns: string, selector: Option<LabelSelector>)
    requires Listed(ns, selector, pod)
    ensures EgressNamespace(Cluster([], [pod], [], []), selector, [])(ns) ==
            if Ready(pod) then [EndpointInfo(AddressOf(pod), [], [], "")] else []
  {
    PodWords();
    hide Listed, FlatMap, ServiceEndpoint, AddressOf, GetPodIP, Ready, IsPodNetworkReady, PodPorts;
    NoPorts(pod);
    FlatMapOne(EgressPod(ns, selector, []), pod);
    Nothing(ServiceEndpoint(Cluster([], [pod], [], []), ns, selector, []));
  }

  /** An unready pod is not published, whether selected or not. */
  lemma AloneUnready(pod: Pod, ns: string, selector: Option<LabelSelector>)
    requires !Ready(pod)
    ensures EgressNamespace(Cluster([], [pod], [], []), selector, [])(ns) == []
  {
    PodWords();
    hide Listed, FlatMap, ServiceEndpoint, AddressOf, GetPodIP, Ready, IsPodNetworkReady, PodPorts;
    FlatMapOne(EgressPod(ns, selector, []), pod);
    Nothing(ServiceEndpoint(Cluster([], [pod], [], []), ns, selector, []));
  }

  /** A ready pod that loses its address is missed by a policy that selects it. */
  lemma ReadyPodSlips(ch: Change<Pod>)
    requires SamePod(ch) && ch.was.Some? && ch.becomes.Some? && AddressOf(EventObject(ch)) == ""
    requires Ready(ch.was.value)
    ensures SlipsSomewhere(ch)
  {
    var y, z := ch.was.value, ch.becomes.value;
    var selector := Some(ByLabels(y.labels));
    ByLabelsMatches(y.labels);
    assert y in Versions(ch) && AsSeq(ch.was) == [y] && AsSeq(ch.becomes) == [z];
    assert !Ready(z) && Listed(y.namespace, selector, y);
    assert RegularServices([]);
    hide *;
    AlonePublished(y, y.namespace, selector);
    AloneUnready(z, y.namespace, selector);
    SlipsWith(ch, y, [], []);
  }

  lemma NoPorts(pod: Pod)
    ensures PodPorts(pod, []) == []
  {
  }

  // ---------------------------------------------------------------- a named port behind a service

  /** The service in front of pods with these labels that listens for the number. */
  function InFront(namespace: string, labels: LabelSet, number: int, protocol: string): Service {
    Service(namespace, "service", Some(labels), "10.0.0.1", [ServicePort(8080, protocol, Number(number))])
  }

  function NamedPolicyPort(name: string, protocol: string): PolicyPort { PolicyPort(Some(protocol), Some(Name(name)), None) }

  /** The named port that the pod declares, as the look-up finds it. */
  lemma NamedPortFound(pod: Pod) returns (name: string, protocol: string, number: int)
    requires NamesPort(pod)
    ensures name != "" && LookupContainerPortAndName(pod, Name(name), protocol) == Some((number, name))
  {
    DeclaredPorts(pod);
    hide ContainerPorts, FirstSome;
    var cp :| cp in ContainerPorts(pod) && cp.name != "";
    name, protocol := cp.name, cp.protocol;
    assert MatchContainerPort(Name(name), protocol)(cp).Some?;
    number := LookupContainerPortAndName(pod, Name(name), protocol).value.0;
  }

  lemma InFrontPorts(pod: Pod, svc: Service, name: string, protocol: string, number: int)
    requires LookupContainerPortAndName(pod, Name(name), protocol) == Some((number, name))
    requires svc == InFront(pod.namespace, pod.labels, number, protocol)
    ensures ClusterIPPorts([], svc, [NamedPolicyPort(name, protocol)]) == []
    ensures ClusterIPPorts([pod], svc, [NamedPolicyPort(name, protocol)]) == [Port(Some(protocol), Some(8080), None)]
  {
    var p, sp := NamedPolicyPort(name, protocol), svc.ports[0];
    hide FlatMap, FirstSome, LookupContainerPortAndName;
    FlatMapOne(ClusterIPPort([], svc, [p]), p);
    FlatMapOne(ClusterIPPort([pod], svc, [p]), p);
    FirstOfOne(ListenPortByTarget(Name(name), protocol), sp);
    FirstOfOne(ListenPortByContainer(number, name, protocol), sp);
    FirstOfOne(ListenPortOn(svc, Name(name), protocol), pod);
    NoneFound(ListenPortOn(svc, Name(name), protocol));
  }

  lemma NoneFound<A, B>(f: A -> Option<B>)
    ensures FirstSome(f, []) == None
  {
  }

  /** Without ready pods, only the service contributes, by the pods behind it. */
  lemma OnlyService(c: Cluster, svc: Service, selector: LabelSelector, ports: seq<PolicyPort>)
    requires c.services == [svc] && !IsServiceHeadless(svc) && Matches(selector, SelectorSet(svc)) && ports != []
    requires forall z | z in c.pods :: !Ready(z)
    ensures EgressNamespace(c, Some(selector), ports)(svc.namespace) ==
            var resolved := ClusterIPPorts(BackingPods(c, svc), svc, ports);
            if resolved == [] then [] else [EndpointInfo(svc.clusterIP, [], resolved, "")]
  {
    PodWords();
    hide FlatMap, ClusterIPPorts, BackingPods, Matches, IsServiceHeadless, SelectorSet, IsPodNetworkReady, Ready, Listed;
    FlatMapOne(ServiceEndpoint(c, svc.namespace, Some(selector), ports), svc);
    FlatMapNothing(EgressPod(svc.namespace, Some(selector), ports), c.pods);
  }

  /** The ports that the service in front of a pod has behind it. */
  lemma InFrontBacking(x: Option<Pod>, svc: Service)
    ensures BackingPods(Cluster([], AsSeq(x), [svc], []), svc) == if x.Some? && Backs(svc, x.value) then [x.value] else []
  {
    BackingVersion(svc, x);
    hide FlatMap, Backs;
  }

  lemma InFrontBacks(pod: Pod, other: Pod, number: int, protocol: string)
    requires pod.namespace == other.namespace
    ensures var svc := InFront(pod.namespace, pod.labels, number, protocol);
            && Backs(svc, pod) && (Backs(svc, other) <==> Subset(pod.labels, other.labels))
            && !IsServiceHeadless(svc) && Matches(ByLabels(pod.labels), SelectorSet(svc)) && RegularServices([svc])
  {
    ByLabelsMatches(pod.labels);
    hide Matches, ByLabels, Monotone;
  }

  lemma InFrontNamespace(x: Option<Pod>, pod: Pod, number: int, protocol: string, p: PolicyPort)
    requires x.Some? ==> !Ready(x.value) && x.value.namespace == pod.namespace
    ensures var svc := InFront(pod.namespace, pod.labels, number, protocol);
            EgressNamespace(Cluster([], AsSeq(x), [svc], []), Some(ByLabels(pod.labels)), [p])(pod.namespace) ==
            var resolved := ClusterIPPorts(if x.Some? && Subset(pod.labels, x.value.labels) then [x.value] else [], svc, [p]);
            if resolved == [] then [] else [EndpointInfo(svc.clusterIP, [], resolved, "")]
  {
    var svc := InFront(pod.namespace, pod.labels, number, protocol);
    InFrontBacks(pod, if x.Some? then x.value else pod, number, protocol);
    InFrontBacking(x, svc);
    assert svc.namespace == pod.namespace;
    hide ClusterIPPorts, BackingPods, Matches, Subset, InFront, EgressNamespace, Ready, IsServiceHeadless, Backs, RegularServices, ByLabels;
    OnlyService(Cluster([], AsSeq(x), [svc], []), svc, ByLabels(pod.labels), [p]);
  }

  lemma NamedPodVersions(ch: Change<Pod>, pod: Pod, here: Option<Pod>, there: Option<Pod>)
    requires SamePod(ch) && here == Some(pod)
    requires (here == ch.was && there == ch.becomes) || (here == ch.becomes && there == ch.was)
    ensures pod in Versions(ch) && (there.Some? ==> there.value in Versions(ch) && there.value.namespace == pod.namespace)
  {
  }

  lemma NamedPortRegular(name: string, protocol: string)
    requires name != ""
    ensures NonEmptyPortName(NamedPolicyPort(name, protocol))
  {
  }

  /** A pod that names a port, next to a version that does not stand behind the same service. */
  lemma NamedPodSlips(ch: Change<Pod>, pod: Pod, here: Option<Pod>, there: Option<Pod>)
    requires SamePod(ch) && Happens(ch) && AddressOf(EventObject(ch)) == "" && NeverReady(ch)
    requires (here == ch.was && there == ch.becomes) || (here == ch.becomes && there == ch.was)
    requires here == Some(pod) && NamesPort(pod) && (there.Some? ==> !Subset(pod.labels, there.value.labels))
    ensures SlipsSomewhere(ch)
  {
    hide *;
    NamedPodVersions(ch, pod, here, there);
    var name, protocol, number := NamedPortFound(pod);
    var svc, p := InFront(pod.namespace, pod.labels, number, protocol), NamedPolicyPort(name, protocol);
    NamedPortRegular(name, protocol);
    InFrontPorts(pod, svc, name, protocol, number);
    InFrontBacks(pod, pod, number, protocol);
    ByLabelsMatches(pod.labels);
    Unready(ch);
    InFrontNamespace(here, pod, number, protocol, p);
    InFrontNamespace(there, pod, number, protocol, p);
    SlipsWith(ch, pod, [svc], [p]);
  }

  lemma Unready(ch: Change<Pod>)
    requires NeverReady(ch)
    ensures forall z | z in Versions(ch) :: !Ready(z)
  {
  }

  lemma SubsetBoth(a: LabelSet, b: LabelSet)
    requires Subset(a, b) && Subset(b, a)
    ensures a == b
  {
    assert a.Keys == b.Keys;
    assert forall k | k in a :: a[k] == b[k];
  }

  lemma LabelsApart(a: LabelSet, b: LabelSet)
    requires a != b
    ensures !Subset(a, b) || !Subset(b, a)
  {
    if Subset(a, b) && Subset(b, a) {
      SubsetBoth(a, b);
    }
  }

  lemma SlipsMissed(ch: Change<Pod>)
    requires SamePod(ch) && SameContainers(ch) && Happens(ch) && AddressOf(EventObject(ch)) == "" && Slips(ch)
    ensures SlipsSomewhere(ch)
  {
    hide SamePod, SlipsSomewhere, AddressOf, ContainerPorts, Subset;
    if ch.was.Some? && ch.becomes.Some? {
      var y, z := ch.was.value, ch.becomes.value;
      if Ready(y) {
        ReadyPodSlips(ch);
      } else {
        assert !Ready(z);
        LabelsApart(y.labels, z.labels);
        SameContainerPorts(y, z);
        if !Subset(y.labels, z.labels) {
          NamedPodSlips(ch, y, ch.was, ch.becomes);
        } else {
          NamedPodSlips(ch, z, ch.becomes, ch.was);
        }
      }
    } else if ch.becomes.Some? {
      NamedPodSlips(ch, ch.becomes.value, ch.becomes, ch.was);
    } else {
      NamedPodSlips(ch, ch.was.value, ch.was, ch.becomes);
    }
  }

  lemma MissedSlips(c: Cluster, ch: Change<Pod>, policy: NetworkPolicy)
    requires SamePod(ch) && SameContainers(ch) && DroppedThoughSeen(c, ch, policy)
    ensures Happens(ch) && Slips(ch)
  {
    hide EgressRules, ReferredForPod, ProperPeers, MonotonePeers, RegularServices, NonEmptyPortNames, SamePod, SameContainers, Slips, AddressOf;
    if !Slips(ch) {
      DroppedPodFrame(c, ch, policy);
    }
  }

  /** A change of a pod whose event is dropped for want of an address is missed by some policy in
      some cluster if and only if it slips, which its two versions alone decide. */
  lemma DroppedExactly(ch: Change<Pod>)
    requires SamePod(ch) && SameContainers(ch) && Happens(ch) && AddressOf(EventObject(ch)) == ""
    ensures SlipsSomewhere(ch) <==> Slips(ch)
  {
    hide SamePod, Slips, DroppedThoughSeen, AddressOf;
    if Slips(ch) {
      SlipsMissed(ch);
    }
    if SlipsSomewhere(ch) {
      var c, other: Change<Pod>, policy :| other.was == ch.was && other.becomes == ch.becomes && DroppedThoughSeen(c, other, policy);
      SameVersions(ch, other);
      MissedSlips(c, other, policy);
    }
  }

  lemma SameVersions(ch: Change<Pod>, other: Change<Pod>)
    requires SamePod(ch) && SameContainers(ch) && Happens(ch) && other.was == ch.was && other.becomes == ch.becomes
    ensures SamePod(other) && SameContainers(other) && Happens(other) && (Slips(other) <==> Slips(ch))
  {
    assert Versions(other) == Versions(ch);
    hide NamesPort, Ready;
  }

  /** In particular every created pod without an address that names a port. */
  lemma AddresslessBackingPodIsMissed(pod: Pod)
    requires AddressOf(pod) == "" && NamesPort(pod)
    ensures SlipsSomewhere(Created(pod))
  {
    hide SlipsSomewhere, NamesPort, AddressOf;
    CreatedChange(pod);
    SlipsMissed(Created(pod));
  }
}
