/** The service changes that some policy misses are exactly the overlooked ones. */
module OverlookedServices {
  import opened Basics
  import opened Flattening
  import opened Labels
  import opened PolicyInfo
  import opened Kubernetes
  import PolicyMeaning
  import Lookups
  import opened Endpoints
  import opened EgressEndpoints
  import opened References
  import ServicePorts
  import opened Dependencies
  import opened ServiceDependencies
  import opened MissedChanges

  /** Some policy in some cluster misses the change. */
  ghost predicate MissedBySome(ch: Change<Service>) {
    exists c, egress, tracked, policy :: ServiceMissed(c, ch, egress, tracked, policy)
  }

  // ---------------------------------------------------------------- a policy that misses the change

  /** What a version contributes where there are no pods. */
  function Contribution(namespace: string, selector: LabelSelector, ports: seq<PolicyPort>, x: Option<Service>): seq<EndpointInfo> {
    match x case None => []
    case Some(svc) => ServiceEndpoint(Cluster([], [], [], []), namespace, Some(selector), ports)(svc)
  }

  lemma Cancel<T>(a: seq<T>, x: seq<T>, y: seq<T>, b: seq<T>)
    requires a + x + b == a + y + b
    ensures x == y
  {
    assert x == (a + x + b)[|a|..|a| + |x|] && |x| == |y|;
    assert y == (a + y + b)[|a|..|a| + |y|];
  }

  lemma EgressOfServices(c: Cluster, namespace: string, selector: LabelSelector, ports: seq<PolicyPort>, a: seq<Service>, x: Option<Service>, b: seq<Service>)
    requires c.pods == [] && c.services == a + AsSeq(x) + b
    ensures var f := ServiceEndpoint(Cluster([], [], [], []), namespace, Some(selector), ports);
            EgressRules(c, SinglePeerPolicy(namespace, Peer(Some(selector), None, None), ports)) ==
            FlatMap(f, a) + Contribution(namespace, selector, ports, x) + FlatMap(f, b)
  {
    var none := Cluster([], [], [], []);
    hide FlatMap, EgressRules, ServiceEndpoint;
    SinglePeer(c, namespace, Peer(Some(selector), None, None), ports);
    Nothing(EgressPod(namespace, Some(selector), ports));
    ServiceEndpointFromPods(none, c, namespace, Some(selector), ports);
    FlatMapParts(ServiceEndpoint(none, namespace, Some(selector), ports), a, AsSeq(x), b);
    ShareOf(none, namespace, Some(selector), ports, x);
  }

  /** The index does not see the peer select any version, or drops the event. */
  ghost predicate Unindexed(ch: Change<Service>, selector: LabelSelector)
    requires Happens(ch)
  {
    || IsServiceHeadless(EventObject(ch))
    || forall z | z in Versions(ch) :: z.selector.None? || !Matches(selector, z.selector.value)
  }

  lemma UnindexedUnreferred(c: Cluster, egress: set<NamespacedName>, ch: Change<Service>, namespace: string, selector: LabelSelector, ports: seq<PolicyPort>)
    requires Happens(ch) && Unindexed(ch, selector)
    ensures !ReferredForService(c, egress, {}, EventObject(ch), EventFormer(ch),
              SinglePeerPolicy(namespace, Peer(Some(selector), None, None), ports))
  {
    var peer := Peer(Some(selector), None, None);
    hide Matches, IsServiceHeadless, PotentialMatch;
    var policy := SinglePeerPolicy(namespace, peer, ports);
    assert EventObject(ch) in Versions(ch);
    assert EventFormer(ch).Some? ==> EventFormer(ch).value in Versions(ch);
    assert policy.egress == [Rule(Some([peer]), ports)] && PeersOf(policy.egress[0]) == [peer];
    assert forall rule | rule in policy.egress :: rule == policy.egress[0];
  }

  lemma MissedWith(ch: Change<Service>, selector: LabelSelector, ports: seq<PolicyPort>)
    requires SameService(ch) && Unindexed(ch, selector)
    requires Contribution(EventObject(ch).namespace, selector, ports, ch.was) !=
             Contribution(EventObject(ch).namespace, selector, ports, ch.becomes)
    ensures MissedBySome(ch)
  {
    hide EgressRules, FlatMap, Contribution, SameService, Unindexed, ReferredForService, TracksNamespaces, TracksEgress;
    SameServiceHappens(ch);
    var ns, peer := EventObject(ch).namespace, Peer(Some(selector), None, None);
    var policy := SinglePeerPolicy(ns, peer, ports);
    var c := Cluster([], [], Before(ch), [policy]);
    var d := WithServices(c, ch);
    var egress := {NamespacedName(ns, "policy")};
    Untracked(c, ns, peer, ports);
    EgressOfServices(c, ns, selector, ports, ch.head, ch.was, ch.tail);
    EgressOfServices(d, ns, selector, ports, ch.head, ch.becomes, ch.tail);
    UnindexedUnreferred(d, egress, ch, ns, selector, ports);
    var f := ServiceEndpoint(Cluster([], [], [], []), ns, Some(selector), ports);
    if EgressRules(c, policy) == EgressRules(d, policy) {
      Cancel(FlatMap(f, ch.head), Contribution(ns, selector, ports, ch.was), Contribution(ns, selector, ports, ch.becomes), FlatMap(f, ch.tail));
    }
    assert ServiceMissed(c, ch, egress, {}, policy);
  }

  /** Without policy ports a published service contributes its ClusterIP. */
  lemma AllPorts(namespace: string, selector: LabelSelector, x: Option<Service>)
    ensures Contribution(namespace, selector, [], x) ==
            if x.None? || x.value.namespace != namespace || IsServiceHeadless(x.value) || !Matches(selector, SelectorSet(x.value))
            then [] else [EndpointInfo(x.value.clusterIP, [], [], "")]
  {
    hide Matches, SelectorSet, IsServiceHeadless;
    if x.Some? {
      Nothing(ClusterIPPort(BackingPods(Cluster([], [], [], []), x.value), x.value, []));
    }
  }

  function Everything(): LabelSelector { LabelSelector(map[], []) }

  lemma VersionsOf(ch: Change<Service>)
    requires SameService(ch)
    ensures ch.was.Some? ==> ch.was.value in Versions(ch) && ch.was.value.namespace == EventObject(ch).namespace
    ensures ch.becomes.Some? ==> ch.becomes.value in Versions(ch) && ch.becomes.value.namespace == EventObject(ch).namespace
  {
    hide ServicePorts.DistinctServicePorts;
    assert EventObject(ch) in Versions(ch);
  }

  // ---------------------------------------------------------------- the kinds of overlooked change

  /** Every service that becomes headless is missed by some policy. */
  lemma HeadlessMissesService(ch: Change<Service>)
    requires SameService(ch) && ch.was.Some? && ch.becomes.Some?
    requires !IsServiceHeadless(ch.was.value) && IsServiceHeadless(ch.becomes.value)
    ensures MissedBySome(ch)
  {
    hide IsServiceHeadless, SameService, MissedBySome;
    SameServiceHappens(ch);
    VersionsOf(ch);
    AllPorts(EventObject(ch).namespace, Everything(), ch.was);
    AllPorts(EventObject(ch).namespace, Everything(), ch.becomes);
    MissedWith(ch, Everything(), []);
  }

  /** Every service that is created or deleted with a ClusterIP and without a selector is missed
      by some policy. */
  lemma NilSelectorMissesService(ch: Change<Service>)
    requires SameService(ch) && EventFormer(ch).None?
    requires !IsServiceHeadless(EventObject(ch)) && EventObject(ch).selector.None?
    ensures MissedBySome(ch)
  {
    hide IsServiceHeadless, SameService, MissedBySome;
    SameServiceHappens(ch);
    VersionsOf(ch);
    AllPorts(EventObject(ch).namespace, Everything(), ch.was);
    AllPorts(EventObject(ch).namespace, Everything(), ch.becomes);
    assert forall z | z in Versions(ch) :: z == EventObject(ch);
    MissedWith(ch, Everything(), []);
  }

  /** The label comes or goes with the selector. */
  lemma SelectorAppearsMissesService(ch: Change<Service>, nil: Service, other: Service)
    requires SameService(ch) && ch.was.Some? && ch.becomes.Some? && !IsServiceHeadless(ch.becomes.value)
    requires (ch.was == Some(nil) && ch.becomes == Some(other)) || (ch.was == Some(other) && ch.becomes == Some(nil))
    requires nil.selector.None? && other.selector.Some? && other.selector.value != map[] && !IsServiceHeadless(nil)
    ensures MissedBySome(ch)
  {
    var k :| k in other.selector.value;
    var selector := LabelSelector(map[], [DoesNotExist(k)]);
    assert selector.matchExpressions[0] in selector.matchExpressions;
    assert Matches(selector, map[]) && !Matches(selector, other.selector.value);
    hide IsServiceHeadless, SameService, Matches, MissedBySome;
    VersionsOf(ch);
    AllPorts(EventObject(ch).namespace, selector, ch.was);
    AllPorts(EventObject(ch).namespace, selector, ch.becomes);
    MissedWith(ch, selector, []);
  }

  /** Without pods only the direct look-up answers. */
  lemma SinglePort(namespace: string, svc: Service, target: IntOrString, protocol: string)
    requires svc.namespace == namespace && !IsServiceHeadless(svc) && svc.selector.None?
    ensures Contribution(namespace, Everything(), [PolicyPort(Some(protocol), Some(target), None)], Some(svc)) ==
            match LookupServiceListenPort(svc, target, protocol)
            case None => []
            case Some(listen) => [EndpointInfo(svc.clusterIP, [], [Port(Some(protocol), Some(listen), None)], "")]
  {
    var p := PolicyPort(Some(protocol), Some(target), None);
    hide FlatMap, IsServiceHeadless, LookupServiceListenPort;
    Nothing(BackingPod(svc));
    FlatMapOne(ClusterIPPort([], svc, [p]), p);
  }

  /** A service without selector that is published anew, elsewhere or on other ports. */
  lemma WithoutSelectorMissesService(ch: Change<Service>)
    requires SameService(ch) && ch.was.Some? && ch.becomes.Some? && !IsServiceHeadless(ch.becomes.value)
    requires ch.was.value.selector.None? && ch.becomes.value.selector.None?
    requires var y, z := ch.was.value, ch.becomes.value;
             IsServiceHeadless(y) || y.clusterIP != z.clusterIP || !SameListeners(y, z)
    ensures MissedBySome(ch)
  {
    var y, z, ns := ch.was.value, ch.becomes.value, EventObject(ch).namespace;
    hide IsServiceHeadless, SameService, MissedBySome, LookupServiceListenPort, Contribution;
    VersionsOf(ch);
    assert forall v | v in Versions(ch) :: v == y || v == z;
    if IsServiceHeadless(y) || y.clusterIP != z.clusterIP {
      AllPorts(ns, Everything(), ch.was);
      AllPorts(ns, Everything(), ch.becomes);
      MissedWith(ch, Everything(), []);
    } else {
      var sp :| sp in y.ports + z.ports
        && LookupServiceListenPort(y, sp.targetPort, sp.protocol) != LookupServiceListenPort(z, sp.targetPort, sp.protocol);
      SinglePort(ns, y, sp.targetPort, sp.protocol);
      SinglePort(ns, z, sp.targetPort, sp.protocol);
      MissedWith(ch, Everything(), [PolicyPort(Some(sp.protocol), Some(sp.targetPort), None)]);
    }
  }

  lemma OverlookedMissed(ch: Change<Service>)
    requires SameService(ch) && Overlooked(ch)
    ensures MissedBySome(ch)
  {
    Lookups.ServiceWords();
    hide IsServiceHeadless, PolicyMeaning.Exposed, MissedBySome, SameListeners, ServicePorts.DistinctServicePorts;
    var z := EventObject(ch);
    if EventFormer(ch).None? {
      NilSelectorMissesService(ch);
    } else {
      var y := EventFormer(ch).value;
      if IsServiceHeadless(z) {
        HeadlessMissesService(ch);
      } else if z.selector.None? && y.selector.None? {
        WithoutSelectorMissesService(ch);
      } else if z.selector.None? {
        SelectorAppearsMissesService(ch, z, y);
      } else {
        SelectorAppearsMissesService(ch, y, z);
      }
    }
  }

  lemma MissedOverlooked(
    c: Cluster, ch: Change<Service>, egress: set<NamespacedName>, tracked: set<NamespacedName>, policy: NetworkPolicy)
    requires ServiceMissed(c, ch, egress, tracked, policy)
    ensures Overlooked(ch)
  {
    hide EgressRules, UniqueNamespaces, ProperPeers, SameService, Overlooked, TracksNamespaces, TracksEgress, ReferredForService, SameShares;
    SameServiceHappens(ch);
    if !Overlooked(ch) {
      UnreferredSameShares(c, ch, egress, tracked, policy);
      ServiceFrameEgress(c, ch, policy);
    }
  }

  /** A created, updated or deleted service is missed by some policy in some cluster if and only
      if the change is an overlooked one, which its two versions alone decide. */
  lemma ServiceMissedExactly(ch: Change<Service>)
    requires SameService(ch)
    ensures MissedBySome(ch) <==> Overlooked(ch)
  {
    SameServiceHappens(ch);
    hide SameService, Overlooked, ServiceMissed;
    if Overlooked(ch) {
      OverlookedMissed(ch);
    }
    if MissedBySome(ch) {
      var c, egress, tracked, policy :| ServiceMissed(c, ch, egress, tracked, policy);
      MissedOverlooked(c, ch, egress, tracked, policy);
    }
  }
}
