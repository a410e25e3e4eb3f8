/** The controller as a whole: pods, namespaces, services and policies change, changes put the
    policies they refer to on the work queue, and reconciliations of queued policies succeed or
    stop midway. Every policy that is not on the queue is published exactly. */
module Controller {
  import opened Basics
  import opened PolicyInfo
  import opened Flattening
  import opened Kubernetes
  import opened Endpoints
  import opened PolicyMeaning
  import opened Lookups
  import opened EgressEndpoints
  import opened References
  import opened Dependencies
  import opened AddresslessPods
  import opened NamespaceDependencies
  import opened ServiceDependencies
  import opened ResolutionValidity
  import opened Store
  import opened Convergence
  import opened RoundResult
  import opened Ownership
  import opened IngressExactness
  import opened EgressExactness
  import opened ServiceListening
  import Tracker

  // ---------------------------------------------------------------- one policy

  function PolicyOf(p: NetworkPolicy): Policy { Policy(p.name, p.namespace, p.podSelector, p.policyTypes) }

  /** The store admits exactly the traffic of the resolved rules and lists exactly the pods. */
  ghost predicate Shows(s: Objects, r: Resolved) {
    && (forall net, dir, f :: Published(net, s, dir, f) <==> AdmittedBy(net, RulesWanted(r, dir), f))
    && (forall p :: PublishedPod(s, p) <==> p in r.pods)
  }

  /** What is published for the policy is what it resolves to in the cluster. */
  ghost predicate InSync(s: Objects, c: Cluster, p: NetworkPolicy) {
    exists r :: ResolvesTo(c, p, r) && Shows(s, r)
  }

  /** A complete round for the policy as it is in the cluster. */
  ghost predicate RoundFor(s: Objects, c: Cluster, p: NetworkPolicy, r: Round) {
    RoundValid(s, r) && r.policy == PolicyOf(p) && ResolvesTo(c, p, r.resolved)
  }

  lemma ShowsDef(s: Objects, r: Resolved)
    requires forall net, dir, f :: Published(net, s, dir, f) <==> AdmittedBy(net, RulesWanted(r, dir), f)
    requires forall p :: PublishedPod(s, p) <==> p in r.pods
    ensures Shows(s, r)
  {
    hide Published, PublishedPod, AdmittedBy;
  }

  lemma RoundShows(s: Objects, r: Round)
    requires ValidStore(s) && RoundValid(s, r)
    ensures |r.names| == |r.plan.create|
    ensures Shows(ApplyAll(s, Writes(s, r)), r.resolved)
  {
    hide *;
    RoundHasNames(s, r);
    var now := ApplyAll(s, Writes(s, r));
    forall net, dir, f ensures Published(net, now, dir, f) <==> AdmittedBy(net, RulesWanted(r.resolved, dir), f) {
      CompleteRoundMeaning(s, r, net, dir, f);
    }
    forall q ensures PublishedPod(now, q) <==> q in r.resolved.pods {
      CompleteRoundPods(s, r, q);
    }
    ShowsDef(now, r.resolved);
  }

  lemma RoundForParts(s: Objects, c: Cluster, p: NetworkPolicy, r: Round)
    requires RoundFor(s, c, p, r)
    ensures RoundValid(s, r) && ResolvesTo(c, p, r.resolved)
  {
    hide RoundValid, ResolvesTo;
  }

  lemma InSyncDef(s: Objects, c: Cluster, p: NetworkPolicy, r: Resolved)
    requires ResolvesTo(c, p, r) && Shows(s, r)
    ensures InSync(s, c, p)
  {
    hide ResolvesTo, Shows;
  }

  lemma CompleteRoundInSync(s: Objects, c: Cluster, p: NetworkPolicy, r: Round)
    requires ValidStore(s) && RoundFor(s, c, p, r)
    ensures |r.names| == |r.plan.create|
    ensures var now := ApplyAll(s, Writes(s, r)); ValidStore(now) && InSync(now, c, p)
  {
    hide *;
    RoundForParts(s, c, p, r);
    RoundHasNames(s, r);
    RoundShows(s, r);
    InSyncDef(ApplyAll(s, Writes(s, r)), c, p, r.resolved);
    PrefixKeepsStoreValid(s, r, |Writes(s, r)|);
    assert Writes(s, r)[..|Writes(s, r)|] == Writes(s, r);
  }

  lemma RoundHasNames(s: Objects, r: Round)
    requires RoundValid(s, r)
    ensures |r.names| == |r.plan.create|
  {
  }

  /** In sync means that the published ingress traffic is what the policy describes. */
  lemma InSyncIngress(s: Objects, c: Cluster, p: NetworkPolicy, net: Network, f: Flow)
    requires InSync(s, c, p) && Universal(net) && CleanIngressPorts(p)
    ensures Published(net, s, Ingress, f) <==> PolicyAllowsIngress(net, c, p, f)
  {
    hide Universal, CleanIngressPorts, PolicyAllowsIngress, Published, AdmittedBy, IngressRules, EgressRules, SelectedPods, IngressPorts;
    var r :| ResolvesTo(c, p, r) && Shows(s, r);
    var ports :| ResolvedPorts(c, p, ports) && r.ingress == IngressRules(c, p, ports, |p.ingress|);
    IngressExact(net, c, p, ports, f);
    assert RulesWanted(r, Ingress) == r.ingress;
  }

  /** The same for egress. */
  lemma InSyncEgress(s: Objects, c: Cluster, p: NetworkPolicy, net: Network, f: Flow)
    requires InSync(s, c, p) && Universal(net)
    ensures Published(net, s, Egress, f) <==> PolicyAllowsEgress(net, c, p, f)
  {
    hide Universal, PolicyAllowsEgress, Published, AdmittedBy, IngressRules, EgressRules, SelectedPods, IngressPorts;
    var r :| ResolvesTo(c, p, r) && Shows(s, r);
    EgressExact(net, c, p, f);
    assert RulesWanted(r, Egress) == r.egress;
  }

  /** The pods that the policy applies to: selected, ready and not on the host network. */
  ghost predicate PolicyCovers(c: Cluster, p: NetworkPolicy, q: PodEndpoint) {
    exists pod :: pod in c.pods && Governs(p, pod) && !pod.hostNetwork && Ready(pod)
                  && q == PodEndpoint(pod.hostIP, AddressOf(pod), pod.name, pod.namespace)
  }

  lemma InSyncPods(s: Objects, c: Cluster, p: NetworkPolicy, q: PodEndpoint)
    requires InSync(s, c, p)
    ensures PublishedPod(s, q) <==> PolicyCovers(c, p, q)
  {
    PodWords();
    hide PublishedPod, IngressRules, EgressRules, IngressPorts, FlatMap, AppliesTo, Governs, IsPodNetworkReady, Ready, GetPodIP, AddressOf;
    var r :| ResolvesTo(c, p, r) && Shows(s, r);
    FlatMapMembers(SelectedPod(p), c.pods, q);
  }

  /** The Reconcile of the manager with the resolver in front of it. */
  method ReconcilePolicy(m: Manager, c: Cluster, p: NetworkPolicy, generate: set<string> -> string, budget: nat)
    returns (ok: bool)
    requires m.endpointChunkSize > 0 && ValidStore(m.objects) && Generates(generate)
    requires ValidCluster(c) && ValidPolicy(p)
    modifies m`objects
    ensures ValidStore(m.objects)
    ensures old(AllReferTo(m.objects, p.name, p.namespace)) ==> AllReferTo(m.objects, p.name, p.namespace)
    ensures ok ==> InSync(m.objects, c, p)
  {
    hide *;
    ghost var s := m.objects;
    var resolved := Resolve(c, p);
    ResolutionIsValid(c, p, resolved);
    ghost var round, done;
    ok, round, done := m.Reconcile(PolicyOf(p), resolved, generate, budget);
    DonePrefix(s, round, done);
    PrefixKeepsStoreValid(s, round, |done|);
    PolicyOfDef(p);
    if AllReferTo(s, p.name, p.namespace) {
      PrefixKeepsReferences(s, round, |done|);
    }
    if ok {
      RoundForDef(s, c, p, round);
      CompleteRoundInSync(s, c, p, round);
    }
  }

  lemma PolicyOfDef(p: NetworkPolicy)
    ensures PolicyOf(p).name == p.name && PolicyOf(p).namespace == p.namespace
  {
  }

  lemma DonePrefix(s: Objects, r: Round, done: seq<Write>)
    requires RoundValid(s, r)
    ensures |r.names| == |r.plan.create|
    ensures done <= Writes(s, r) ==> |done| <= |Writes(s, r)| && done == Writes(s, r)[..|done|]
  {
  }

  lemma RoundForDef(s: Objects, c: Cluster, p: NetworkPolicy, r: Round)
    requires RoundValid(s, r) && r.policy == PolicyOf(p) && ResolvesTo(c, p, r.resolved)
    ensures RoundFor(s, c, p, r)
  {
  }

  // ---------------------------------------------------------------- the system

  /** The cluster, the published objects of every policy, the tracker's sets and the queue. */
  datatype System = System(
    cluster: Cluster, stores: map<NamespacedName, Objects>,
    namespaced: set<NamespacedName>, egress: set<NamespacedName>, queue: set<NamespacedName>)

  datatype Action =
    | PodChanged(pod: Change<Pod>)
    | NamespaceChanged(namespace: Change<Namespace>)
    | ServiceChanged(service: Change<Service>)
    | PolicyChanged(policy: Change<NetworkPolicy>)
    | Interrupted(name: NamespacedName, attempt: Attempt)
    | Reconciled(name: NamespacedName, round: Round)

  /** What the index needs of a policy: peers with a selector or an IP block, egress selectors that
      more labels cannot break, and named ports with a name. */
  ghost predicate ProperPolicy(p: NetworkPolicy) {
    ProperPeers(p.ingress) && ProperPeers(p.egress) && MonotonePeers(p.egress) && NonEmptyPortNames(p.egress)
  }

  /** What the API server guarantees of the objects, and the queue and tracker of each other. */
  ghost predicate Sound(y: System) {
    && UniqueNamespaces(y.cluster) && UniquePolicies(y.cluster.policies)
    && RegularServices(y.cluster.services)
    && TracksNamespaces(y.cluster, y.namespaced) && TracksEgress(y.cluster, y.egress)
    && forall p | p in y.cluster.policies :: NameOf(p) in y.stores && ValidStore(y.stores[NameOf(p)])
  }

  /** The queue receives the names of the referred policies. */
  ghost predicate Enqueues(c: Cluster, before: set<NamespacedName>, after: set<NamespacedName>, refers: NetworkPolicy -> bool) {
    before <= after && forall p | p in c.policies :: refers(p) ==> NameOf(p) in after
  }

  function PodReferrer(c: Cluster, tracked: set<NamespacedName>, ch: Change<Pod>): NetworkPolicy -> bool
    requires Happens(ch)
  {
    (p: NetworkPolicy) => ReferredForPod(c, tracked, EventObject(ch), EventFormer(ch), p)
  }

  function NamespaceReferrer(tracked: set<NamespacedName>, ch: Change<Namespace>): NetworkPolicy -> bool
    requires Happens(ch)
  {
    (p: NetworkPolicy) => ReferredForNamespace(tracked, EventObject(ch), EventFormer(ch), p)
  }

  function ServiceReferrer(
    c: Cluster, egress: set<NamespacedName>, tracked: set<NamespacedName>, ch: Change<Service>): NetworkPolicy -> bool
    requires Happens(ch)
  {
    (p: NetworkPolicy) => ReferredForService(c, egress, tracked, EventObject(ch), EventFormer(ch), p)
  }

  /** No policy can miss the change: its versions are silent in this cluster, or it does not slip. */
  ghost predicate Droppable(c: Cluster, ch: Change<Pod>)
    requires Happens(ch)
  {
    (forall v | v in Versions(ch) :: Silent(c, v)) || (SameContainers(ch) && !Slips(ch))
  }

  /** The event of a pod without an address is dropped. */
  ghost predicate PodStep(y: System, z: System, ch: Change<Pod>) {
    && y.cluster.pods == Before(ch) && SamePod(ch)
    && z == y.(cluster := WithPods(y.cluster, ch), queue := z.queue)
    && if AddressOf(EventObject(ch)) != "" then
         Enqueues(z.cluster, y.queue, z.queue, PodReferrer(z.cluster, y.namespaced, ch))
       else
         z.queue == y.queue && Droppable(y.cluster, ch)
  }

  ghost predicate NamespaceStep(y: System, z: System, ch: Change<Namespace>) {
    && y.cluster.namespaces == Before(ch) && Happens(ch) && UniqueNamespaces(z.cluster)
    && z == y.(cluster := WithNamespaces(y.cluster, ch), queue := z.queue)
    && Enqueues(z.cluster, y.queue, z.queue, NamespaceReferrer(y.namespaced, ch))
  }

  ghost predicate ServiceStep(y: System, z: System, ch: Change<Service>) {
    && y.cluster.services == Before(ch) && SameService(ch) && !Overlooked(ch) && RegularServices(After(ch))
    && z == y.(cluster := WithServices(y.cluster, ch), queue := z.queue)
    && Enqueues(z.cluster, y.queue, z.queue, ServiceReferrer(z.cluster, y.egress, y.namespaced, ch))
  }

  /** A created or updated policy is queued; the tracker follows as in the event handler. */
  ghost predicate PolicyStep(y: System, z: System, ch: Change<NetworkPolicy>) {
    && y.cluster.policies == Before(ch) && Happens(ch) && UniquePolicies(After(ch))
    && (ch.was.Some? && ch.becomes.Some? ==> NameOf(ch.was.value) == NameOf(ch.becomes.value))
    && z.cluster == y.cluster.(policies := After(ch))
    && var n := NameOf(EventObject(ch));
       if ch.becomes.Some? then
         && z.namespaced == Tracker.Stored(y.namespaced, n, ContainsNamespaceReference(ch.becomes.value))
         && z.egress == Tracker.Stored(y.egress, n, ContainsEgressRules(ch.becomes.value))
         && z.queue == y.queue + {n}
         && z.stores == (if n in y.stores then y.stores else y.stores[n := map[]])
         && (n in y.stores ==> ValidStore(y.stores[n]))
       else
         && z.namespaced == y.namespaced - {n} && z.egress == y.egress - {n}
         && z.queue == y.queue && z.stores == y.stores
  }

  ghost predicate StoredAs(c: Cluster, n: NamespacedName, p: NetworkPolicy) {
    p in c.policies && NameOf(p) == n
  }

  /** A reconciliation of the policy, as it is or was, that stopped after some of its writes; the
      policy stays on the queue. */
  ghost predicate InterruptedStep(y: System, z: System, n: NamespacedName, a: Attempt) {
    && n in y.queue && n in y.stores && AttemptValid(y.stores[n], a)
    && a.round.policy.name == n.name && a.round.policy.namespace == n.namespace
    && z == y.(stores := y.stores[n := AfterAttempt(y.stores[n], a)])
  }

  /** A complete reconciliation against the present cluster takes the policy off the queue. */
  ghost predicate ReconciledStep(y: System, z: System, n: NamespacedName, r: Round) {
    && n in y.queue && n in y.stores
    && (exists p :: StoredAs(y.cluster, n, p) && RoundFor(y.stores[n], y.cluster, p, r))
    && |r.names| == |r.plan.create|
    && z == y.(stores := y.stores[n := ApplyAll(y.stores[n], Writes(y.stores[n], r))], queue := y.queue - {n})
  }

  ghost predicate Next(y: System, z: System, a: Action) {
    match a
    case PodChanged(ch) => PodStep(y, z, ch)
    case NamespaceChanged(ch) => NamespaceStep(y, z, ch)
    case ServiceChanged(ch) => ServiceStep(y, z, ch)
    case PolicyChanged(ch) => PolicyStep(y, z, ch)
    case Interrupted(n, attempt) => InterruptedStep(y, z, n, attempt)
    case Reconciled(n, r) => ReconciledStep(y, z, n, r)
  }

  /** Every proper policy that is not queued is published exactly. */
  ghost predicate UpToDate(y: System) {
    forall p | p in y.cluster.policies && NameOf(p) !in y.queue && ProperPolicy(p) ::
      NameOf(p) in y.stores && InSync(y.stores[NameOf(p)], y.cluster, p)
  }

  // ---------------------------------------------------------------- changes of objects

  lemma InSyncCarries(s: Objects, c: Cluster, d: Cluster, p: NetworkPolicy)
    requires InSync(s, c, p)
    requires forall r :: ResolvesTo(c, p, r) ==> ResolvesTo(d, p, r)
    ensures InSync(s, d, p)
  {
    hide ResolvesTo, Shows;
  }

  /** Each proper policy of the later cluster was there before and is either queued or unaffected. */
  ghost predicate Carries(y: System, z: System) {
    && z.stores == y.stores && z.cluster.policies == y.cluster.policies && y.queue <= z.queue
    && forall p, r | p in y.cluster.policies && NameOf(p) !in z.queue && ProperPolicy(p) ::
         ResolvesTo(y.cluster, p, r) ==> ResolvesTo(z.cluster, p, r)
  }

  lemma CarriedUpToDate(y: System, z: System)
    requires UpToDate(y) && Carries(y, z)
    ensures UpToDate(z)
  {
    hide ResolvesTo, InSync, ProperPolicy;
    forall p | p in z.cluster.policies && NameOf(p) !in z.queue && ProperPolicy(p)
      ensures NameOf(p) in z.stores && InSync(z.stores[NameOf(p)], z.cluster, p)
    {
      InSyncCarries(y.stores[NameOf(p)], y.cluster, z.cluster, p);
    }
  }

  /** A dropped event changes no resolution of a proper policy. */
  lemma DroppedCarries(c: Cluster, ch: Change<Pod>, p: NetworkPolicy)
    requires c.pods == Before(ch) && SamePod(ch) && Happens(ch) && AddressOf(EventObject(ch)) == ""
    requires Droppable(c, ch) && RegularServices(c.services) && ProperPolicy(p)
    ensures forall r | ResolvesTo(c, p, r) :: ResolvesTo(WithPods(c, ch), p, r)
  {
    hide ResolvesTo, Silent, SamePod, SameContainers, Slips, RegularServices, NonEmptyPortNames, EgressRules, AddressOf, ProperPeers, MonotonePeers;
    if forall v | v in Versions(ch) :: Silent(c, v) {
      SilentPodFrame(c, ch, p);
    } else {
      DroppedPodFrame(c, ch, p);
    }
  }

  lemma PodStepCarries(y: System, z: System, ch: Change<Pod>)
    requires Sound(y) && PodStep(y, z, ch)
    ensures Carries(y, z)
  {
    hide ResolvesTo, UniqueNamespaces, UniquePolicies, TracksNamespaces, TracksEgress, ValidStore, ReferredForPod, ProperPeers, MonotonePeers, NonEmptyPortNames, RegularServices, SamePod, Droppable, AddressOf;
    SamePodHappens(ch);
    forall p, r | p in y.cluster.policies && NameOf(p) !in z.queue && ProperPolicy(p) && ResolvesTo(y.cluster, p, r)
      ensures ResolvesTo(z.cluster, p, r)
    {
      if AddressOf(EventObject(ch)) != "" {
        assert !PodReferrer(z.cluster, y.namespaced, ch)(p);
        PodChangeComplete(y.cluster, ch, y.namespaced, p, r);
      } else {
        DroppedCarries(y.cluster, ch, p);
      }
    }
  }

  lemma NamespaceStepCarries(y: System, z: System, ch: Change<Namespace>)
    requires Sound(y) && NamespaceStep(y, z, ch)
    ensures Carries(y, z)
  {
    hide ResolvesTo, UniqueNamespaces, UniquePolicies, TracksNamespaces, TracksEgress, ValidStore, ReferredForNamespace, ProperPolicy;
    forall p, r | p in y.cluster.policies && NameOf(p) !in z.queue && ProperPolicy(p) && ResolvesTo(y.cluster, p, r)
      ensures ResolvesTo(z.cluster, p, r)
    {
      assert !NamespaceReferrer(y.namespaced, ch)(p);
      NamespaceChangeComplete(y.cluster, ch, y.namespaced, p, r);
    }
  }

  lemma ServiceStepCarries(y: System, z: System, ch: Change<Service>)
    requires Sound(y) && ServiceStep(y, z, ch)
    ensures Carries(y, z)
  {
    hide ResolvesTo, UniqueNamespaces, UniquePolicies, TracksNamespaces, TracksEgress, ValidStore, ReferredForService, ProperPeers, MonotonePeers, NonEmptyPortNames, RegularServices, SameService, Overlooked;
    SameServiceHappens(ch);
    forall p, r | p in y.cluster.policies && NameOf(p) !in z.queue && ProperPolicy(p) && ResolvesTo(y.cluster, p, r)
      ensures ResolvesTo(z.cluster, p, r)
    {
      assert !ServiceReferrer(z.cluster, y.egress, y.namespaced, ch)(p);
      ServiceChangeComplete(y.cluster, ch, y.egress, y.namespaced, p, r);
    }
  }

  lemma SameServiceHappens(ch: Change<Service>)
    requires SameService(ch)
    ensures Happens(ch)
  {
  }

  /** An object change leaves the index of the unchanged policies exact. */
  lemma ObjectStepSound(y: System, z: System)
    requires Sound(y) && z.cluster.policies == y.cluster.policies && UniqueNamespaces(z.cluster)
    requires z.stores == y.stores && z.namespaced == y.namespaced && z.egress == y.egress
    requires RegularServices(z.cluster.services)
    ensures Sound(z)
  {
    hide UniqueNamespaces, UniquePolicies, RegularServices, ValidStore, ContainsNamespaceReference;
  }

  lemma SameNamespacesUnique(c: Cluster, d: Cluster)
    requires UniqueNamespaces(c) && c.namespaces == d.namespaces
    ensures UniqueNamespaces(d)
  {
  }

  // ---------------------------------------------------------------- changes of policies

  /** Resolution does not look at other policies. */
  lemma OtherPoliciesIrrelevant(c: Cluster, policies: seq<NetworkPolicy>, p: NetworkPolicy, r: Resolved)
    requires ResolvesTo(c, p, r)
    ensures ResolvesTo(c.(policies := policies), p, r)
  {
    var d := c.(policies := policies);
    hide ResolvesTo, IngressPeer, EgressPeer, FlatMap, DestinationPorts, SelectedPod, PeersOf;
    forall peer, ports ensures IngressPeer(c, p.namespace, ports)(peer) == IngressPeer(d, p.namespace, ports)(peer) {
      SameNamespacesSamePeer(c, d, p.namespace, peer);
    }
    forall peer, ports ensures EgressPeer(c, p.namespace, ports)(peer) == EgressPeer(d, p.namespace, ports)(peer) {
      SameNamespacesSamePeer(c, d, p.namespace, peer);
    }
    LiftResolution(c, d, p, r);
  }

  lemma OtherPolicy(ch: Change<NetworkPolicy>, p: NetworkPolicy)
    requires Happens(ch) && UniquePolicies(Before(ch)) && UniquePolicies(After(ch))
    requires ch.was.Some? && ch.becomes.Some? ==> NameOf(ch.was.value) == NameOf(ch.becomes.value)
    requires p in After(ch) && ch.becomes != Some(p)
    ensures p in Before(ch) && NameOf(p) != NameOf(EventObject(ch))
  {
    var i :| 0 <= i < |After(ch)| && After(ch)[i] == p;
    var k := |ch.head|;
    if i < k {
      assert Before(ch)[i] == p;
      if ch.becomes.Some? { assert After(ch)[k] == ch.becomes.value; } else { assert Before(ch)[k] == ch.was.value; }
    } else {
      var j := i - |AsSeq(ch.becomes)| + |AsSeq(ch.was)|;
      assert Before(ch)[j] == p;
      if ch.becomes.Some? { assert After(ch)[k] == ch.becomes.value; } else { assert Before(ch)[k] == ch.was.value; }
    }
  }

  lemma PolicyStepUpToDate(y: System, z: System, ch: Change<NetworkPolicy>)
    requires Sound(y) && UpToDate(y) && PolicyStep(y, z, ch)
    ensures UpToDate(z)
  {
    hide ResolvesTo, InSync, UniqueNamespaces, UniquePolicies, TracksNamespaces, TracksEgress, ValidStore, ProperPolicy, Before, After;
    forall p | p in z.cluster.policies && NameOf(p) !in z.queue && ProperPolicy(p)
      ensures NameOf(p) in z.stores && InSync(z.stores[NameOf(p)], z.cluster, p)
    {
      OtherPolicy(ch, p);
      forall r | ResolvesTo(y.cluster, p, r) ensures ResolvesTo(z.cluster, p, r) {
        OtherPoliciesIrrelevant(y.cluster, After(ch), p, r);
      }
      InSyncCarries(y.stores[NameOf(p)], y.cluster, z.cluster, p);
    }
  }

  lemma EmptyStoreValid()
    ensures ValidStore(map[])
  {
  }

  lemma PolicyStepSound(y: System, z: System, ch: Change<NetworkPolicy>)
    requires Sound(y) && PolicyStep(y, z, ch)
    ensures Sound(z)
  {
    hide UniquePolicies, ValidStore, RegularServices, Before, After, ContainsNamespaceReference, ContainsEgressRules;
    EmptyStoreValid();
    forall p | p in z.cluster.policies
      ensures NameOf(p) in z.stores && ValidStore(z.stores[NameOf(p)])
      ensures NameOf(p) in z.namespaced <==> ContainsNamespaceReference(p)
      ensures NameOf(p) in z.egress <==> ContainsEgressRules(p)
    {
      if ch.becomes != Some(p) {
        OtherPolicy(ch, p);
      }
    }
  }

  // ---------------------------------------------------------------- reconciliations

  lemma InterruptedStepKeeps(y: System, z: System, n: NamespacedName, a: Attempt)
    requires Sound(y) && UpToDate(y) && InterruptedStep(y, z, n, a)
    ensures Sound(z) && UpToDate(z)
  {
    hide InSync, UniqueNamespaces, UniquePolicies, TracksNamespaces, TracksEgress, ValidStore, ProperPolicy, RoundValid, Writes, ApplyAll;
    forall p | p in y.cluster.policies && NameOf(p) == n ensures ValidStore(z.stores[n]) {
      PrefixKeepsStoreValid(y.stores[n], a.round, a.cut);
    }
    TrackingUnchanged(y, z);
  }

  lemma TrackingUnchanged(y: System, z: System)
    requires y.cluster == z.cluster && y.namespaced == z.namespaced && y.egress == z.egress
    ensures UniqueNamespaces(y.cluster) == UniqueNamespaces(z.cluster)
    ensures TracksNamespaces(y.cluster, y.namespaced) == TracksNamespaces(z.cluster, z.namespaced)
    ensures TracksEgress(y.cluster, y.egress) == TracksEgress(z.cluster, z.egress)
  {
  }

  lemma ReconciledStepKeeps(y: System, z: System, n: NamespacedName, r: Round)
    requires Sound(y) && UpToDate(y) && ReconciledStep(y, z, n, r)
    ensures Sound(z) && UpToDate(z)
  {
    hide InSync, UniqueNamespaces, UniquePolicies, TracksNamespaces, TracksEgress, ValidStore, ProperPolicy, RoundFor, Writes, ApplyAll;
    var p :| StoredAs(y.cluster, n, p) && RoundFor(y.stores[n], y.cluster, p, r);
    CompleteRoundInSync(y.stores[n], y.cluster, p, r);
    forall q | q in y.cluster.policies && NameOf(q) == n ensures q == p {
      UniqueNamed(y.cluster, q, p);
    }
    TrackingUnchanged(y, z);
  }

  // ---------------------------------------------------------------- runs

  lemma StepKeeps(y: System, z: System, a: Action)
    requires Sound(y) && UpToDate(y) && Next(y, z, a)
    ensures Sound(z) && UpToDate(z)
  {
    hide Sound, UpToDate, UniqueNamespaces, PolicyStep, InterruptedStep, ReconciledStep, Enqueues, Carries, SamePod, SameService, Overlooked;
    SoundNamespaces(y);
    match a
    case PodChanged(ch) =>
      PodStepCarries(y, z, ch);
      CarriedUpToDate(y, z);
      SameNamespacesUnique(y.cluster, z.cluster);
      ObjectStepSound(y, z);
    case NamespaceChanged(ch) =>
      NamespaceStepCarries(y, z, ch);
      CarriedUpToDate(y, z);
      ObjectStepSound(y, z);
    case ServiceChanged(ch) =>
      ServiceStepCarries(y, z, ch);
      CarriedUpToDate(y, z);
      SameNamespacesUnique(y.cluster, z.cluster);
      ObjectStepSound(y, z);
    case PolicyChanged(ch) =>
      PolicyStepUpToDate(y, z, ch);
      PolicyStepSound(y, z, ch);
    case Interrupted(n, attempt) => InterruptedStepKeeps(y, z, n, attempt);
    case Reconciled(n, r) => ReconciledStepKeeps(y, z, n, r);
  }

  lemma SoundNamespaces(y: System)
    requires Sound(y)
    ensures UniqueNamespaces(y.cluster) && RegularServices(y.cluster.services)
  {
    hide RegularServices, UniqueNamespaces;
  }

  /** Where runs start: any cluster, no policy yet. */
  lemma StartIsQuiet(c: Cluster)
    requires UniqueNamespaces(c) && RegularServices(c.services) && c.policies == []
    ensures Sound(System(c, map[], {}, {}, {})) && UpToDate(System(c, map[], {}, {}, {}))
    ensures Owned(System(c, map[], {}, {}, {})) && Isolating(System(c, map[], {}, {}, {}))
  {
  }

  /** A run: consecutive states and the actions between them. */
  ghost predicate Run(states: seq<System>, actions: seq<Action>) {
    && |states| == |actions| + 1
    && forall i :: 0 <= i < |actions| ==> Next(states[i], states[i + 1], actions[i])
  }

  lemma {:induction false} RunKeeps(states: seq<System>, actions: seq<Action>, i: nat)
    requires Run(states, actions) && i < |states| && Sound(states[0]) && UpToDate(states[0])
    ensures Sound(states[i]) && UpToDate(states[i])
  {
    hide Sound, UpToDate, Next;
    if i > 0 {
      RunKeeps(states, actions, i - 1);
      StepKeeps(states[i - 1], states[i], actions[i - 1]);
    }
  }

  // ---------------------------------------------------------------- whose the objects are

  /** The published objects of every policy refer to it, by name and namespace. */
  ghost predicate Owned(y: System) {
    forall n | n in y.stores :: ValidStore(y.stores[n]) && AllReferTo(y.stores[n], n.name, n.namespace)
  }

  lemma InterruptedKeepsOwned(y: System, z: System, n: NamespacedName, a: Attempt)
    requires Owned(y) && InterruptedStep(y, z, n, a)
    ensures Owned(z)
  {
    hide ValidStore, RoundValid, Writes, ApplyAll, AllReferTo;
    PrefixKeepsStoreValid(y.stores[n], a.round, a.cut);
    PrefixKeepsReferences(y.stores[n], a.round, a.cut);
  }

  lemma ReconciledKeepsOwned(y: System, z: System, n: NamespacedName, r: Round)
    requires Owned(y) && ReconciledStep(y, z, n, r)
    ensures Owned(z)
  {
    hide ValidStore, Writes, ApplyAll, AllReferTo, RoundFor;
    var s := y.stores[n];
    var p :| StoredAs(y.cluster, n, p) && RoundFor(s, y.cluster, p, r);
    RoundForPolicy(s, y.cluster, p, r);
    PrefixKeepsStoreValid(s, r, |Writes(s, r)|);
    PrefixKeepsReferences(s, r, |Writes(s, r)|);
    assert Writes(s, r)[..|Writes(s, r)|] == Writes(s, r);
  }

  lemma RoundForPolicy(s: Objects, c: Cluster, p: NetworkPolicy, r: Round)
    requires RoundFor(s, c, p, r)
    ensures RoundValid(s, r) && r.policy.name == p.name && r.policy.namespace == p.namespace
    ensures r.policy.podSelector == p.podSelector && r.policy.policyTypes == p.policyTypes
  {
    hide RoundValid, ResolvesTo;
  }

  lemma StepKeepsOwned(y: System, z: System, a: Action)
    requires Owned(y) && Next(y, z, a)
    ensures Owned(z)
  {
    EmptyStoreValid();
    hide ValidStore, InterruptedStep, ReconciledStep, Enqueues, SamePod, SameService, Overlooked, Droppable, RegularServices;
    match a
    case Interrupted(n, attempt) => InterruptedKeepsOwned(y, z, n, attempt);
    case Reconciled(n, r) => ReconciledKeepsOwned(y, z, n, r);
    case _ =>
  }

  /** At every moment of every run that starts so, all published objects refer to their policy, and
      the next listing finds them. */
  lemma {:induction false} RunKeepsOwned(states: seq<System>, actions: seq<Action>, i: nat)
    requires Run(states, actions) && i < |states| && Owned(states[0])
    ensures Owned(states[i])
  {
    hide Owned, Next;
    if i > 0 {
      RunKeepsOwned(states, actions, i - 1);
      StepKeepsOwned(states[i - 1], states[i], actions[i - 1]);
    }
  }

  /** Every policy that is not queued has objects that isolate its types. */
  ghost predicate Isolating(y: System) {
    forall p, n | p in y.cluster.policies && NameOf(p) !in y.queue && NameOf(p) in y.stores && n in y.stores[NameOf(p)] ::
      Isolates(y.stores[NameOf(p)][n], p.policyTypes)
  }

  lemma ReconciledIsolating(y: System, z: System, n: NamespacedName, r: Round)
    requires Sound(y) && Isolating(y) && ReconciledStep(y, z, n, r)
    ensures Isolating(z)
  {
    hide ValidStore, Writes, ApplyAll, RoundFor, UniquePolicies, UniqueNamespaces, TracksNamespaces, TracksEgress, RegularServices, Isolates;
    var s := y.stores[n];
    var p :| StoredAs(y.cluster, n, p) && RoundFor(s, y.cluster, p, r);
    RoundForPolicy(s, y.cluster, p, r);
    AfterRound(s, r);
    forall q | q in y.cluster.policies && NameOf(q) == n ensures q == p {
      UniqueNamed(y.cluster, q, p);
    }
    forall m | m in z.stores[n] ensures Isolates(z.stores[n][m], p.policyTypes) {
      RoundIsolates(s, r, m);
    }
  }

  lemma AfterRound(s: Objects, r: Round)
    requires RoundValid(s, r)
    ensures |r.names| == |r.plan.create| && StoreAfter(s, r) == ApplyAll(s, Writes(s, r))
  {
    hide Writes, ApplyAll;
  }

  lemma PolicyStepIsolating(y: System, z: System, ch: Change<NetworkPolicy>)
    requires Sound(y) && Isolating(y) && PolicyStep(y, z, ch)
    ensures Isolating(z)
  {
    hide UniquePolicies, UniqueNamespaces, TracksNamespaces, TracksEgress, RegularServices, ValidStore, Isolates, Before, After;
    forall p | p in z.cluster.policies && NameOf(p) !in z.queue ensures p in y.cluster.policies && NameOf(p) != NameOf(EventObject(ch)) {
      OtherPolicy(ch, p);
    }
  }

  lemma StepKeepsIsolating(y: System, z: System, a: Action)
    requires Sound(y) && Isolating(y) && Next(y, z, a)
    ensures Isolating(z)
  {
    hide Sound, PolicyStep, ReconciledStep, SamePod, SameService, Overlooked, Droppable, RegularServices, Isolates, AttemptValid, AfterAttempt;
    match a
    case PolicyChanged(ch) => PolicyStepIsolating(y, z, ch);
    case Reconciled(n, r) => ReconciledIsolating(y, z, n, r);
    case _ =>
  }

  /** At every moment of every run, all objects of a policy that is not queued isolate exactly the
      types of traffic that the policy isolates. */
  lemma {:induction false} RunKeepsIsolating(states: seq<System>, actions: seq<Action>, i: nat)
    requires Run(states, actions) && i < |states| && Sound(states[0]) && UpToDate(states[0]) && Isolating(states[0])
    ensures Isolating(states[i])
  {
    hide Sound, UpToDate, Isolating, Next;
    if i > 0 {
      RunKeepsIsolating(states, actions, i - 1);
      RunKeeps(states, actions, i - 1);
      StepKeepsIsolating(states[i - 1], states[i], actions[i - 1]);
    }
  }

  /** At every moment of every run, a proper policy that is not on the queue is published exactly: its
      objects admit the ingress and the egress traffic that the policy describes in the present
      cluster, and list the pods that it applies to there. */
  lemma QuietPoliciesAreExact(
    states: seq<System>, actions: seq<Action>, i: nat, p: NetworkPolicy, net: Network, f: Flow, q: PodEndpoint)
    requires Run(states, actions) && i < |states| && Sound(states[0]) && UpToDate(states[0])
    requires p in states[i].cluster.policies && NameOf(p) !in states[i].queue && ProperPolicy(p)
    requires Universal(net) && CleanIngressPorts(p)
    ensures NameOf(p) in states[i].stores
    ensures var s, c := states[i].stores[NameOf(p)], states[i].cluster;
            && (Published(net, s, Ingress, f) <==> PolicyAllowsIngress(net, c, p, f))
            && (Published(net, s, Egress, f) <==> PolicyAllowsEgress(net, c, p, f))
            && (PublishedPod(s, q) <==> PolicyCovers(c, p, q))
  {
    hide Sound, Next, InSync, Published, PublishedPod, PolicyAllowsIngress, PolicyAllowsEgress, PolicyCovers, Universal, CleanIngressPorts, Run;
    RunKeeps(states, actions, i);
    var s, c := states[i].stores[NameOf(p)], states[i].cluster;
    InSyncIngress(s, c, p, net, f);
    InSyncEgress(s, c, p, net, f);
    InSyncPods(s, c, p, q);
  }

  /** In terms of where services deliver traffic: at every moment of every run, a proper policy that is
      not on the queue admits only egress traffic that it describes, and all of it when every
      service publishes all listen ports that lead to a policy port. */
  lemma QuietPoliciesAsDescribed(states: seq<System>, actions: seq<Action>, i: nat, p: NetworkPolicy, net: Network, f: Flow)
    requires Run(states, actions) && i < |states| && Sound(states[0]) && UpToDate(states[0])
    requires p in states[i].cluster.policies && NameOf(p) !in states[i].queue && ProperPolicy(p)
    requires Universal(net) && RegularPorts(states[i].cluster, p)
    ensures NameOf(p) in states[i].stores
    ensures var s, c := states[i].stores[NameOf(p)], states[i].cluster;
            && (Published(net, s, Egress, f) ==> PolicyDescribesEgress(net, c, p, f))
            && (ServicesPublished(c, p) && PolicyDescribesEgress(net, c, p, f) ==> Published(net, s, Egress, f))
  {
    hide Sound, Next, InSync, Published, PolicyAllowsEgress, PolicyDescribesEgress, Universal, Run, RegularPorts, ServicesPublished;
    RunKeeps(states, actions, i);
    InSyncEgress(states[i].stores[NameOf(p)], states[i].cluster, p, net, f);
    EgressDescribed(net, states[i].cluster, p, f);
  }
}
