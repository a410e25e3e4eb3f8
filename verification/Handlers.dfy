/** The event handlers realise the steps of the controller's runs. */
module Handlers {
  import opened Basics
  import opened Kubernetes
  import opened PolicyMeaning
  import opened References
  import opened Dependencies
  import opened AddresslessPods
  import opened NamespaceDependencies
  import opened ServiceDependencies
  import opened Controller
  import opened Tracker
  import Store

  // ---------------------------------------------------------------- pods, namespaces, services

  /** The names of the requests. */
  function NamesOf(requests: seq<Request>): set<NamespacedName> { set r | r in requests :: r.name }

  /** What handling the sent events added to the queue of the policy event handler. */
  ghost predicate Requested(before: seq<Request>, after: seq<Request>, sent: seq<NetworkPolicy>, batchPeriod: nat) {
    && |after| == |before| + |sent| && after[..|before|] == before
    && forall i :: 0 <= i < |sent| ==>
         after[|before| + i] == Request(NamespacedName(sent[i].namespace, sent[i].name), batchPeriod)
  }

  lemma TrackedAlready(t: Tracked, p: NetworkPolicy)
    requires NameOf(p) in t.np.namespaced <==> ContainsNamespaceReference(p)
    requires NameOf(p) in t.np.egress <==> ContainsEgressRules(p)
    ensures Updated(t, NP(p)) == t
  {
    hide ContainsNamespaceReference, ContainsEgressRules;
  }

  /** The policy event handler receives a generic event for each policy that was sent: each adds a
      request after the batch period, and a tracker that is up to date stays as it is. */
  method Deliver(h: PolicyEventHandler, c: Cluster, sent: seq<NetworkPolicy>)
    requires forall p | p in sent :: p in c.policies
    requires TracksNamespaces(c, h.tracker.State().np.namespaced) && TracksEgress(c, h.tracker.State().np.egress)
    modifies h.tracker, h`queue
    ensures h.tracker.State() == old(h.tracker.State())
    ensures Requested(old(h.queue), h.queue, sent, h.podUpdateBatchPeriod)
  {
    hide ContainsNamespaceReference, ContainsEgressRules, Updated;
    for i := 0 to |sent|
      invariant h.tracker.State() == old(h.tracker.State())
      invariant Requested(old(h.queue), h.queue, sent[..i], h.podUpdateBatchPeriod)
    {
      assert sent[i] in sent;
      TrackedAlready(h.tracker.State(), sent[i]);
      h.Handle(Generic(Versioned(NP(sent[i]), "", false)));
      assert sent[..i + 1] == sent[..i] + [sent[i]];
    }
    assert sent[..|sent|] == sent;
  }

  lemma RequestedNames(before: seq<Request>, after: seq<Request>, sent: seq<NetworkPolicy>, batchPeriod: nat)
    requires Requested(before, after, sent, batchPeriod)
    ensures forall p | p in sent :: NameOf(p) in NamesOf(after[|before|..])
    ensures sent == [] ==> NamesOf(after[|before|..]) == {}
  {
    forall p | p in sent ensures NameOf(p) in NamesOf(after[|before|..]) {
      var i :| 0 <= i < |sent| && sent[i] == p;
      assert after[|before|..][i] == after[|before| + i];
      assert after[|before|..][i] in after[|before|..];
    }
  }

  /** The handler's tracker is the one of the system. */
  ghost predicate Mirrors(h: PolicyEventHandler, y: System)
    reads h, h.tracker
  {
    y.namespaced == h.tracker.State().np.namespaced && y.egress == h.tracker.State().np.egress
  }

  /** A pod changes and its event is handled; the event of a pod without an address is dropped,
      which takes a step when no policy can miss the change. */
  method PodEvent(y: System, ch: Change<Pod>, h: PolicyEventHandler) returns (z: System)
    requires Mirrors(h, y) && TracksNamespaces(y.cluster, y.namespaced) && TracksEgress(y.cluster, y.egress)
    requires UniquePolicies(y.cluster.policies) && y.cluster.pods == Before(ch) && SamePod(ch)
    requires Happens(ch) && (AddressOf(EventObject(ch)) == "" ==> Droppable(y.cluster, ch))
    modifies h.tracker, h`queue
    ensures Next(y, z, PodChanged(ch)) && Mirrors(h, z)
    ensures old(h.queue) <= h.queue && z.queue == y.queue + NamesOf(h.queue[|old(h.queue)|..])
  {
    hide ReferredForPod, UniquePolicies, SamePod, Droppable, AddressOf, ContainsNamespaceReference, ContainsEgressRules;
    var c := WithPods(y.cluster, ch);
    var sent := EnqueueForPod(c, y.namespaced, EventObject(ch), EventFormer(ch));
    var before := h.queue;
    Deliver(h, c, sent);
    RequestedNames(before, h.queue, sent, h.podUpdateBatchPeriod);
    z := y.(cluster := c, queue := y.queue + NamesOf(h.queue[|before|..]));
  }

  /** A namespace changes and its event is handled. */
  method NamespaceEvent(y: System, ch: Change<Namespace>, h: PolicyEventHandler) returns (z: System)
    requires Mirrors(h, y) && TracksNamespaces(y.cluster, y.namespaced) && TracksEgress(y.cluster, y.egress)
    requires UniquePolicies(y.cluster.policies) && y.cluster.namespaces == Before(ch) && Happens(ch)
    requires UniqueNamespaces(WithNamespaces(y.cluster, ch))
    modifies h.tracker, h`queue
    ensures Next(y, z, NamespaceChanged(ch)) && Mirrors(h, z)
    ensures old(h.queue) <= h.queue && z.queue == y.queue + NamesOf(h.queue[|old(h.queue)|..])
  {
    hide ReferredForNamespace, UniquePolicies, UniqueNamespaces, ContainsNamespaceReference, ContainsEgressRules;
    var c := WithNamespaces(y.cluster, ch);
    var sent := EnqueueForNamespace(c, y.namespaced, EventObject(ch), EventFormer(ch));
    var before := h.queue;
    Deliver(h, c, sent);
    RequestedNames(before, h.queue, sent, h.podUpdateBatchPeriod);
    z := y.(cluster := c, queue := y.queue + NamesOf(h.queue[|before|..]));
  }

  /** A service changes and its event is handled, provided the index does not overlook it. */
  method ServiceEvent(y: System, ch: Change<Service>, h: PolicyEventHandler) returns (z: System)
    requires Mirrors(h, y) && TracksNamespaces(y.cluster, y.namespaced) && TracksEgress(y.cluster, y.egress)
    requires UniquePolicies(y.cluster.policies) && y.cluster.services == Before(ch) && SameService(ch)
    requires Happens(ch) && !Overlooked(ch) && RegularServices(After(ch))
    modifies h.tracker, h`queue
    ensures Next(y, z, ServiceChanged(ch)) && Mirrors(h, z)
    ensures old(h.queue) <= h.queue && z.queue == y.queue + NamesOf(h.queue[|old(h.queue)|..])
  {
    hide ReferredForService, UniquePolicies, SameService, Overlooked, RegularServices, ContainsNamespaceReference, ContainsEgressRules;
    var c := WithServices(y.cluster, ch);
    var sent := EnqueueForService(c, y.egress, y.namespaced, EventObject(ch), EventFormer(ch));
    var before := h.queue;
    Deliver(h, c, sent);
    RequestedNames(before, h.queue, sent, h.podUpdateBatchPeriod);
    z := y.(cluster := c, queue := y.queue + NamesOf(h.queue[|before|..]));
  }

  // ---------------------------------------------------------------- policies

  /** The event of a created, updated or deleted NetworkPolicy. */
  predicate EventOf(ch: Change<NetworkPolicy>, e: Event) {
    match (ch.was, ch.becomes)
    case (None, Some(p)) => e.Create? && e.created.policy == NP(p)
    case (Some(o), Some(p)) => e.Update? && e.former.policy == NP(o) && e.latest.policy == NP(p)
    case (Some(o), None) => e.Delete? && e.deleted.policy == NP(o)
    case (None, None) => false
  }

  /** What the controller knows after the policy event handler has handled the event: the
      tracker's sets, the queue, and an empty store for a new policy. */
  function AfterPolicyEvent(y: System, ch: Change<NetworkPolicy>, t: Tracked, e: Event, batchPeriod: nat): System
    requires Happens(ch)
  {
    var n, after := NameOf(EventObject(ch)), Step(t, e);
    System(y.cluster.(policies := After(ch)),
      if ch.becomes.None? || n in y.stores then y.stores else y.stores[n := map[]],
      after.np.namespaced, after.np.egress, y.queue + NamesOf(Requests(e, batchPeriod)))
  }

  lemma EventQueues(ch: Change<NetworkPolicy>, e: Event, batchPeriod: nat)
    requires EventOf(ch, e) && !(e.Update? && Unchanged(e.former, e.latest))
    ensures Happens(ch)
    ensures NamesOf(Requests(e, batchPeriod)) == if ch.becomes.Some? then {NameOf(ch.becomes.value)} else {}
  {
    hide Unchanged;
    if ch.becomes.Some? {
      assert Requests(e, batchPeriod) == [Request(NameOf(ch.becomes.value), 0)];
    }
  }

  lemma EventTracks(ch: Change<NetworkPolicy>, t: Tracked, e: Event)
    requires EventOf(ch, e) && !(e.Update? && Unchanged(e.former, e.latest))
    ensures Happens(ch)
    ensures var n := NameOf(EventObject(ch));
            Step(t, e).np == if ch.becomes.Some? then
              Index(Stored(t.np.namespaced, n, ContainsNamespaceReference(ch.becomes.value)),
                Stored(t.np.egress, n, ContainsEgressRules(ch.becomes.value)))
            else Index(t.np.namespaced - {n}, t.np.egress - {n})
  {
    hide Unchanged, ContainsNamespaceReference, ContainsEgressRules;
  }

  /** Every policy event that the handler does not skip takes the controller a policy step. */
  lemma PolicyEventSteps(y: System, ch: Change<NetworkPolicy>, t: Tracked, e: Event, batchPeriod: nat)
    requires EventOf(ch, e) && !(e.Update? && Unchanged(e.former, e.latest))
    requires y.namespaced == t.np.namespaced && y.egress == t.np.egress
    requires y.cluster.policies == Before(ch) && UniquePolicies(After(ch))
    requires ch.was.Some? && ch.becomes.Some? ==> NameOf(ch.was.value) == NameOf(ch.becomes.value)
    requires forall n | n in y.stores :: Store.ValidStore(y.stores[n])
    ensures Happens(ch) && Next(y, AfterPolicyEvent(y, ch, t, e, batchPeriod), PolicyChanged(ch))
  {
    EventQueues(ch, e, batchPeriod);
    EventTracks(ch, t, e);
    hide Unchanged, UniquePolicies, Store.ValidStore, Step, Requests, EventOf, Before, After, ContainsNamespaceReference, ContainsEgressRules;
  }

  /** A policy changes and its event is handled. */
  method PolicyEvent(y: System, ch: Change<NetworkPolicy>, e: Event, h: PolicyEventHandler) returns (z: System)
    requires Mirrors(h, y) && EventOf(ch, e) && !(e.Update? && Unchanged(e.former, e.latest)) && Happens(ch)
    requires y.cluster.policies == Before(ch) && UniquePolicies(After(ch))
    requires ch.was.Some? && ch.becomes.Some? ==> NameOf(ch.was.value) == NameOf(ch.becomes.value)
    requires forall n | n in y.stores :: Store.ValidStore(y.stores[n])
    modifies h.tracker, h`queue
    ensures Next(y, z, PolicyChanged(ch)) && Mirrors(h, z)
    ensures old(h.queue) <= h.queue && z.queue == y.queue + NamesOf(h.queue[|old(h.queue)|..])
  {
    hide EventOf, Unchanged, UniquePolicies, Before, After, Next, Step, Requests, Store.ValidStore, Skippable, OneMore, Named;
    ghost var t := h.tracker.State();
    var n, before := NameOf(EventObject(ch)), h.queue;
    h.Handle(e);
    assert h.queue[|before|..] == Requests(e, h.podUpdateBatchPeriod);
    z := System(y.cluster.(policies := After(ch)),
      if ch.becomes.None? || n in y.stores then y.stores else y.stores[n := map[]],
      h.tracker.namespacedPolicies, h.tracker.egressRulesPolicies, y.queue + NamesOf(h.queue[|before|..]));
    PolicyEventSteps(y, ch, t, e, h.podUpdateBatchPeriod);
  }

  /** Peer lists are absent in the same places. */
  predicate SamePeerLists(a: seq<Rule>, b: seq<Rule>) {
    |a| == |b| ==> forall i :: 0 <= i < |a| ==> (a[i].peers.Some? <==> b[i].peers.Some?)
  }

  lemma NormalSame(a: seq<Rule>, b: seq<Rule>)
    requires Map(Normal, a) == Map(Normal, b) && SamePeerLists(a, b)
    ensures a == b
  {
    assert |a| == |Map(Normal, a)| && |b| == |Map(Normal, b)|;
    forall i | 0 <= i < |a| ensures a[i] == b[i] {
      assert Map(Normal, a)[i] == Normal(a[i]) && Map(Normal, b)[i] == Normal(b[i]);
    }
  }

  /** An event that the handler skips changes nothing, unless an absent peer list became an empty
      one or the reverse, which the API server's serialization does not tell apart. */
  lemma SkippedEventIsStutter(ch: Change<NetworkPolicy>, e: Event)
    requires EventOf(ch, e) && e.Update? && Unchanged(e.former, e.latest)
    requires NameOf(ch.was.value) == NameOf(ch.becomes.value)
    requires SamePeerLists(ch.was.value.ingress, ch.becomes.value.ingress)
    requires SamePeerLists(ch.was.value.egress, ch.becomes.value.egress)
    ensures After(ch) == Before(ch)
  {
    var p, q := ch.was.value, ch.becomes.value;
    NormalSame(p.ingress, q.ingress);
    NormalSame(p.egress, q.egress);
  }

  // ---------------------------------------------------------------- the tracker's part of soundness

  /** After any possible sequence of policy events, the sets of the tracker are what the index
      relies on in every cluster whose policies are the live ones. */
  lemma TrackerSoundAlways(es: seq<Event>, c: Cluster)
    requires PossibleRun(map[], es)
    requires forall p | p in c.policies ::
      KeyOf(NP(p)) in LiveAfterAll(map[], es) && LiveAfterAll(map[], es)[KeyOf(NP(p))] == NP(p)
    ensures var t := StepAll(NothingTracked(), es);
            TracksNamespaces(c, t.np.namespaced) && TracksEgress(c, t.np.egress)
  {
    hide PossibleRun, LiveAfterAll, StepAll, Exact, TracksNamespaces, TracksEgress;
    TrackerExact(es);
    ExactTrackerServesIndex(StepAll(NothingTracked(), es), LiveAfterAll(map[], es), c);
  }

  /** Hence a system whose tracker handled all policy events is sound when its objects are. */
  lemma TrackedSystemSound(y: System, es: seq<Event>)
    requires PossibleRun(map[], es)
    requires forall p | p in y.cluster.policies ::
      KeyOf(NP(p)) in LiveAfterAll(map[], es) && LiveAfterAll(map[], es)[KeyOf(NP(p))] == NP(p)
    requires var t := StepAll(NothingTracked(), es); y.namespaced == t.np.namespaced && y.egress == t.np.egress
    requires UniqueNamespaces(y.cluster) && UniquePolicies(y.cluster.policies) && RegularServices(y.cluster.services)
    requires forall p | p in y.cluster.policies ::
      NameOf(p) in y.stores && Store.ValidStore(y.stores[NameOf(p)])
    ensures Sound(y)
  {
    hide PossibleRun, LiveAfterAll, StepAll, TracksNamespaces, TracksEgress, UniqueNamespaces, UniquePolicies, RegularServices, Store.ValidStore;
    TrackerSoundAlways(es, y.cluster);
  }
}
