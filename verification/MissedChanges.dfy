/** Why the completeness of the dependency index needs its assumptions: for each one, a change
    that alters a policy's resolution without referring the policy. */
module MissedChanges {
  import opened Basics
  import opened Flattening
  import opened Labels
  import opened PolicyInfo
  import opened Kubernetes
  import opened Endpoints
  import opened EgressEndpoints
  import opened References
  import opened Dependencies

  /** The pod changes what the policy resolves to, yet the policy is not referred. */
  ghost predicate PodMissed(c: Cluster, ch: Change<Pod>, tracked: set<NamespacedName>, policy: NetworkPolicy) {
    && c.pods == Before(ch) && SamePod(ch) && UniqueNamespaces(c)
    && policy in c.policies && TracksNamespaces(c, tracked)
    && !ReferredForPod(WithPods(c, ch), tracked, EventObject(ch), EventFormer(ch), policy)
    && EgressRules(c, policy) != EgressRules(WithPods(c, ch), policy)
  }

  /** A policy with a single egress peer in its own namespace. */
  function SinglePeerPolicy(namespace: string, peer: Peer, ports: seq<PolicyPort>): NetworkPolicy {
    NetworkPolicy(namespace, "policy", LabelSelector(map["role" := "client"], []), ["Egress"], [], [Rule(Some([peer]), ports)])
  }

  lemma SinglePeer(c: Cluster, namespace: string, peer: Peer, ports: seq<PolicyPort>)
    requires peer.namespaceSelector.None? && peer.ipBlock.None?
    ensures EgressRules(c, SinglePeerPolicy(namespace, peer, ports)) == EgressNamespace(c, peer.podSelector, ports)(namespace)
  {
    var rule := Rule(Some([peer]), ports);
    hide FlatMap, EgressNamespace;
    FlatMapOne(EgressRule(c, namespace), rule);
    FlatMapOne(EgressPeer(c, namespace, ports), peer);
    FlatMapOne(EgressNamespace(c, peer.podSelector, ports), namespace);
  }

  lemma Untracked(c: Cluster, namespace: string, peer: Peer, ports: seq<PolicyPort>)
    requires peer.namespaceSelector.None? && c.policies == [SinglePeerPolicy(namespace, peer, ports)]
    ensures TracksNamespaces(c, {}) && TracksEgress(c, {NamespacedName(namespace, "policy")})
  {
  }

  lemma {:induction false} Nothing<A, B>(f: A -> seq<B>)
    ensures FlatMap(f, []) == []
  {
  }

  /** A policy subject that the labels do not match. */
  function Elsewhere(labels: LabelSet): LabelSelector {
    LabelSelector(map["role" := if "role" in labels then labels["role"] + "x" else "client"], [])
  }

  lemma ElsewhereMatchesNot(labels: LabelSet)
    ensures !Matches(Elsewhere(labels), labels)
  {
    if "role" in labels {
      assert |labels["role"] + "x"| == |labels["role"]| + 1;
    }
  }

  /** A policy about other pods, with a single egress peer in its own namespace. */
  function OtherPolicy(labels: LabelSet, namespace: string, peer: Peer, ports: seq<PolicyPort>): NetworkPolicy {
    SinglePeerPolicy(namespace, peer, ports).(podSelector := Elsewhere(labels))
  }

  /** Who the policy is about does not matter for its egress. */
  lemma OtherPeer(c: Cluster, labels: LabelSet, namespace: string, peer: Peer, ports: seq<PolicyPort>)
    requires peer.namespaceSelector.None? && peer.ipBlock.None?
    ensures EgressRules(c, OtherPolicy(labels, namespace, peer, ports)) == EgressNamespace(c, peer.podSelector, ports)(namespace)
  {
    SinglePeer(c, namespace, peer, ports);
    hide FlatMap, EgressRule, EgressNamespace;
  }

  /** The index sees neither the policy's own selector nor its peer match the pod. */
  lemma NotIndexed(c: Cluster, pod: Pod, peer: Peer, ports: seq<PolicyPort>)
    requires peer.namespaceSelector.None? && !SelectsStrictly(peer.podSelector, pod.labels)
    ensures !ReferredForPod(c, {}, pod, None, OtherPolicy(pod.labels, pod.namespace, peer, ports))
  {
    hide SelectsStrictly, Matches, Elsewhere;
    ElsewhereMatchesNot(pod.labels);
    assert PeersOf(OtherPolicy(pod.labels, pod.namespace, peer, ports).egress[0]) == [peer];
  }

  function Created(pod: Pod): Change<Pod> { Change([], None, Some(pod), []) }

  lemma CreatedChange(pod: Pod)
    ensures Before(Created(pod)) == [] && After(Created(pod)) == [pod] && SamePod(Created(pod))
    ensures EventObject(Created(pod)) == pod && EventFormer(Created(pod)) == None
  {
  }

  lemma OtherUntracked(c: Cluster, labels: LabelSet, namespace: string, peer: Peer, ports: seq<PolicyPort>)
    requires peer.namespaceSelector.None? && c.policies == [OtherPolicy(labels, namespace, peer, ports)]
    ensures TracksNamespaces(c, {})
  {
    hide Elsewhere;
  }

  /** A created pod that the index does not see and that changes what the peer resolves to. */
  lemma MissedWhenCreated(services: seq<Service>, pod: Pod, peer: Peer, ports: seq<PolicyPort>)
    requires peer.namespaceSelector.None? && peer.ipBlock.None? && !SelectsStrictly(peer.podSelector, pod.labels)
    requires var policy := OtherPolicy(pod.labels, pod.namespace, peer, ports);
             EgressNamespace(Cluster([], [], services, [policy]), peer.podSelector, ports)(pod.namespace) !=
             EgressNamespace(Cluster([], [pod], services, [policy]), peer.podSelector, ports)(pod.namespace)
    ensures exists c, ch, tracked :: PodMissed(c, ch, tracked, OtherPolicy(pod.labels, pod.namespace, peer, ports))
  {
    hide EgressNamespace, SelectsStrictly, ReferredForPod, EgressRules, TracksNamespaces, SamePod, Before, After, EventObject, EventFormer;
    var ns, policy := pod.namespace, OtherPolicy(pod.labels, pod.namespace, peer, ports);
    var c, d := Cluster([], [], services, [policy]), Cluster([], [pod], services, [policy]);
    CreatedChange(pod);
    OtherUntracked(c, pod.labels, ns, peer, ports);
    OtherPeer(c, pod.labels, ns, peer, ports);
    OtherPeer(d, pod.labels, ns, peer, ports);
    NotIndexed(d, pod, peer, ports);
    assert WithPods(c, Created(pod)) == d;
    assert PodMissed(c, Created(pod), {}, policy);
  }

  lemma ReadyPodListed(c: Cluster, pod: Pod)
    requires IsPodNetworkReady(pod) && pod.namespace == "ns" && c.services == []
    ensures c.pods == [] ==> |EgressNamespace(c, None, [])("ns")| == 0
    ensures c.pods == [pod] ==> |EgressNamespace(c, None, [])("ns")| == 1
  {
    hide FlatMap, IsPodNetworkReady, ServiceEndpoint;
    FlatMapOne(EgressPod("ns", None, []), pod);
    Nothing(EgressPod("ns", None, []));
    Nothing(ServiceEndpoint(c, "ns", None, []));
    Nothing(PodPort(pod));
  }

  /** An empty peer selects every pod of the namespace, but the index says it selects none. */
  lemma EmptyPeerMissesPod()
    ensures exists c, ch, tracked, policy :: PodMissed(c, ch, tracked, policy) && MonotonePeers(policy.egress)
  {
    var peer := Peer(None, None, None);
    var pod := Pod("ns", "pod", map[], "10.1.0.1", "", "10.2.0.1", Running, false, []);
    var policy := OtherPolicy(pod.labels, "ns", peer, []);
    hide EgressNamespace, PodMissed;
    ReadyPodListed(Cluster([], [], [], [policy]), pod);
    ReadyPodListed(Cluster([], [pod], [], [policy]), pod);
    MissedWhenCreated([], pod, peer, []);
  }

  lemma NamedListenPort(pod: Pod, svc: Service, container: Container, cp: ContainerPort, sp: ServicePort, p: PolicyPort)
    requires pod.containers == [container] && container.ports == [cp] && cp == ContainerPort("http", 80, "TCP")
    requires svc.ports == [sp] && sp == ServicePort(8080, "TCP", Name("http"))
    requires p == PolicyPort(None, Some(Number(80)), None)
    ensures ClusterIPPorts([], svc, [p]) == []
    ensures ClusterIPPorts([pod], svc, [p]) == [Port(Some("TCP"), Some(8080), None)]
  {
    FlatMapOne(ClusterIPPort([], svc, [p]), p);
    FlatMapOne(ClusterIPPort([pod], svc, [p]), p);
    FlatMapOne(PortsOfContainer(), container);
    hide FlatMap;
    FirstOfOne(MatchContainerPort(Number(80), "TCP"), cp);
    FirstOfOne(NamedContainerPort("http", "TCP"), cp);
    FirstOfOne(ListenPortByTarget(Number(80), "TCP"), sp);
    FirstOfOne(ListenPortByContainer(80, "http", "TCP"), sp);
    FirstOfOne(ListenPortOn(svc, Number(80), "TCP"), pod);
    FirstOfOne(NamedTargetPort(8080, "TCP"), sp);
    assert PortAllows(p, 80, "TCP");
  }

  /** A service is published once a pod behind it declares the port. */
  lemma ServicePublished(c: Cluster, pod: Pod, svc: Service, selector: LabelSelector, p: PolicyPort)
    requires c.services == [svc] && svc.namespace == "ns" && !IsServiceHeadless(svc)
    requires Matches(selector, SelectorSet(svc)) && !Matches(selector, pod.labels) && Backs(svc, pod)
    requires ClusterIPPorts([], svc, [p]) == [] && |ClusterIPPorts([pod], svc, [p])| == 1
    ensures c.pods == [] ==> |EgressNamespace(c, Some(selector), [p])("ns")| == 0
    ensures c.pods == [pod] ==> |EgressNamespace(c, Some(selector), [p])("ns")| == 1
  {
    hide FlatMap, ClusterIPPorts, Matches, Backs, IsServiceHeadless, SelectorSet, IsPodNetworkReady;
    FlatMapOne(EgressPod("ns", Some(selector), [p]), pod);
    Nothing(EgressPod("ns", Some(selector), [p]));
    FlatMapOne(ServiceEndpoint(c, "ns", Some(selector), [p]), svc);
    FlatMapOne(BackingPod(svc), pod);
    Nothing(BackingPod(svc));
  }

  /** A pod behind the service whose labels the selector does not match, though it matches those
      that the service selects by, is missed. */
  lemma BreakableMissesPod(selector: LabelSelector, sub: LabelSet, ls: LabelSet)
    requires Subset(sub, ls) && Matches(selector, sub) && !Matches(selector, ls)
    ensures MissedThrough(selector)
  {
    var peer, p := Peer(Some(selector), None, None), PolicyPort(None, Some(Number(80)), None);
    var cp, sp := ContainerPort("http", 80, "TCP"), ServicePort(8080, "TCP", Name("http"));
    var container := Container("c", [cp]);
    var pod := Pod("ns", "pod", ls, "10.1.0.1", "", "10.2.0.1", Running, false, [container]);
    var policy := OtherPolicy(ls, "ns", peer, [p]);
    var svc := Service("ns", "svc", Some(sub), "10.0.0.1", [sp]);
    hide EgressNamespace, PodMissed, ClusterIPPorts, Matches, Subset, Elsewhere;
    NamedListenPort(pod, svc, container, cp, sp, p);
    ServicePublished(Cluster([], [], [svc], [policy]), pod, svc, selector, p);
    ServicePublished(Cluster([], [pod], [svc], [policy]), pod, svc, selector, p);
    MissedWhenCreated([svc], pod, peer, [p]);
    OnlyPeer(ls, "ns", selector, [p]);
  }

  /** The only egress peer of the policy selects pods of its own namespace by the selector. */
  ghost predicate SelectsBy(policy: NetworkPolicy, selector: LabelSelector) {
    |policy.egress| == 1 && PeersOf(policy.egress[0]) == [Peer(Some(selector), None, None)] && policy.ingress == []
  }

  lemma OnlyPeer(labels: LabelSet, namespace: string, selector: LabelSelector, ports: seq<PolicyPort>)
    ensures SelectsBy(OtherPolicy(labels, namespace, Peer(Some(selector), None, None), ports), selector)
  {
  }

  /** Some policy with this selector as its peer misses some change of a pod. */
  ghost predicate MissedThrough(selector: LabelSelector) {
    exists c, ch, tracked, policy :: PodMissed(c, ch, tracked, policy) && SelectsBy(policy, selector)
  }

  lemma MonotoneSeesPods(c: Cluster, ch: Change<Pod>, tracked: set<NamespacedName>, policy: NetworkPolicy, selector: LabelSelector)
    requires PodMissed(c, ch, tracked, policy) && SelectsBy(policy, selector)
    ensures !Monotone(selector)
  {
    hide EgressRules, ReferredForPod, SamePod, UniqueNamespaces, ContainsNamespaceReference, Unrelated, Monotone;
    if Monotone(selector) {
      assert policy.egress == [policy.egress[0]];
      assert MonotonePeers(policy.egress) && ProperPeers(policy.egress);
      UnrelatedVersions(WithPods(c, ch), tracked, ch, policy);
      SameReferences(c, WithPods(c, ch), policy);
      PodFrameEgress(c, ch, policy);
    }
  }

  /** An egress pod selector makes some policy miss some pod exactly when adding labels can make
      it stop matching. */
  lemma SelectorMissesExactly(selector: LabelSelector)
    ensures MissedThrough(selector) <==> !Monotone(selector)
  {
    hide PodMissed, SelectsBy, Matches, Subset;
    if !Monotone(selector) {
      var sub: LabelSet, ls: LabelSet :| Subset(sub, ls) && Matches(selector, sub) && !Matches(selector, ls);
      BreakableMissesPod(selector, sub, ls);
    }
    if MissedThrough(selector) {
      var c, ch, tracked, policy :| PodMissed(c, ch, tracked, policy) && SelectsBy(policy, selector);
      MonotoneSeesPods(c, ch, tracked, policy, selector);
    }
  }

  /** For example the absence of a label. */
  lemma NegativeSelectorMissesPod(key: string)
    ensures MissedThrough(LabelSelector(map[], [DoesNotExist(key)]))
  {
    var selector, ls: LabelSet := LabelSelector(map[], [DoesNotExist(key)]), map[key := "value"];
    assert selector.matchExpressions[0] in selector.matchExpressions;
    assert Matches(selector, map[]) && !Matches(selector, ls) && Subset(map[], ls);
    hide MissedThrough;
    BreakableMissesPod(selector, map[], ls);
  }
}
