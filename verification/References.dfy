/** Which policies a changed pod, namespace or service refers to: the policies_for_* resolvers. */
module References {
  import opened Basics
  import opened Flattening
  import opened Labels
  import opened Kubernetes
  import opened PolicyMeaning

  function NameOf(policy: NetworkPolicy): NamespacedName { NamespacedName(policy.namespace, policy.name) }

  function PeersOf(rule: Rule): seq<Peer> {
    match rule.peers case None => [] case Some(peers) => peers
  }

  /** Policies are stored under distinct names. */
  ghost predicate UniquePolicies(policies: seq<NetworkPolicy>) {
    forall i, j :: 0 <= i < j < |policies| ==> NameOf(policies[i]) != NameOf(policies[j])
  }

  function PolicyNamed(ref: NamespacedName): NetworkPolicy -> Option<NetworkPolicy> {
    (p: NetworkPolicy) => if NameOf(p) == ref then Some(p) else None
  }

  /** The client's Get. */
  function GetPolicy(c: Cluster, ref: NamespacedName): (r: Option<NetworkPolicy>)
    ensures r.Some? ==> r.value in c.policies && NameOf(r.value) == ref
    ensures r.None? ==> forall p | p in c.policies :: NameOf(p) != ref
  {
    var r := FirstSome(PolicyNamed(ref), c.policies);
    assert r.None? ==> forall p | p in c.policies :: PolicyNamed(ref)(p).None?;
    r
  }

  function NamespaceCalled(name: string): Namespace -> Option<Namespace> {
    (n: Namespace) => if n.name == name then Some(n) else None
  }

  function GetNamespace(c: Cluster, name: string): Option<Namespace> {
    FirstSome(NamespaceCalled(name), c.namespaces)
  }

  // ---------------------------------------------------------------- the tracker's sets

  predicate HasNamespaceSelector(rules: seq<Rule>) {
    exists rule | rule in rules :: exists peer | peer in PeersOf(rule) :: peer.namespaceSelector.Some?
  }

  predicate ContainsNamespaceReference(policy: NetworkPolicy) {
    HasNamespaceSelector(policy.ingress) || HasNamespaceSelector(policy.egress)
  }

  predicate ContainsEgressRules(policy: NetworkPolicy) { |policy.egress| > 0 }

  // ---------------------------------------------------------------- pods

  predicate IsPodLabelMatchPeer(c: Cluster, pod: Pod, policyNamespace: string, peer: Peer) {
    if peer.namespaceSelector.Some? then
      var ns := GetNamespace(c, pod.namespace);
      && ns.Some? && Matches(peer.namespaceSelector.value, ns.value.labels)
      && (peer.podSelector.None? || SelectsStrictly(peer.podSelector, pod.labels))
    else
      pod.namespace == policyNamespace && SelectsStrictly(peer.podSelector, pod.labels)
  }

  predicate IsPodReferredIn(c: Cluster, pod: Pod, policyNamespace: string, rules: seq<Rule>) {
    exists rule | rule in rules :: exists peer | peer in PeersOf(rule) :: IsPodLabelMatchPeer(c, pod, policyNamespace, peer)
  }

  predicate IsPodReferredOnIngressEgress(c: Cluster, pod: Pod, policy: NetworkPolicy) {
    IsPodReferredIn(c, pod, policy.namespace, policy.ingress) || IsPodReferredIn(c, pod, policy.namespace, policy.egress)
  }

  predicate IsPodMatchesPolicySelector(pod: Pod, former: Option<Pod>, policy: NetworkPolicy) {
    || Matches(policy.podSelector, pod.labels)
    || (former.Some? && Matches(policy.podSelector, former.value.labels))
  }

  predicate EitherPodReferred(c: Cluster, pod: Pod, former: Option<Pod>, policy: NetworkPolicy) {
    || IsPodReferredOnIngressEgress(c, pod, policy)
    || (former.Some? && IsPodReferredOnIngressEgress(c, former.value, policy))
  }

  predicate ReferredHere(c: Cluster, pod: Pod, former: Option<Pod>, policy: NetworkPolicy) {
    && policy.namespace == pod.namespace
    && (IsPodMatchesPolicySelector(pod, former, policy) || EitherPodReferred(c, pod, former, policy))
  }

  predicate ReferredForPod(c: Cluster, tracked: set<NamespacedName>, pod: Pod, former: Option<Pod>, policy: NetworkPolicy) {
    || ReferredHere(c, pod, former, policy)
    || (NameOf(policy) in tracked && EitherPodReferred(c, pod, former, policy))
  }

  ghost predicate HasPolicyNamed(policies: seq<NetworkPolicy>, ref: NamespacedName) {
    exists p :: p in policies && NameOf(p) == ref
  }

  lemma UniqueNamed(c: Cluster, p: NetworkPolicy, q: NetworkPolicy)
    requires UniquePolicies(c.policies) && p in c.policies && q in c.policies && NameOf(p) == NameOf(q)
    ensures p == q
  {
    var i :| 0 <= i < |c.policies| && c.policies[i] == p;
    var j :| 0 <= j < |c.policies| && c.policies[j] == q;
    assert i < j || j < i || i == j;
  }

  lemma NoneUnique()
    ensures UniquePolicies([])
  {
  }

  lemma UniqueSnoc(r: seq<NetworkPolicy>, p: NetworkPolicy)
    requires UniquePolicies(r) && !HasPolicyNamed(r, NameOf(p))
    ensures UniquePolicies(r + [p])
    ensures forall ref :: HasPolicyNamed(r + [p], ref) <==> HasPolicyNamed(r, ref) || ref == NameOf(p)
  {
    forall i | 0 <= i < |r| ensures NameOf(r[i]) != NameOf(p) {
      assert r[i] in r;
    }
    NamedSnoc(r, p);
  }

  /** The policies of the pod's own namespace. */
  method ReferredInNamespace(c: Cluster, pod: Pod, former: Option<Pod>)
    returns (r: seq<NetworkPolicy>, processed: set<NamespacedName>)
    requires UniquePolicies(c.policies)
    ensures forall p :: p in r <==> p in c.policies && ReferredHere(c, pod, former, p)
    ensures UniquePolicies(r)
    ensures forall ref :: ref in processed <==> HasPolicyNamed(r, ref)
  {
    hide IsPodMatchesPolicySelector, IsPodReferredOnIngressEgress;
    r, processed := [], {};
    for i := 0 to |c.policies|
      invariant forall p :: p in r <==> p in c.policies[..i] && ReferredHere(c, pod, former, p)
      invariant UniquePolicies(r)
      invariant forall ref :: ref in processed <==> HasPolicyNamed(r, ref)
    {
      var p := c.policies[i];
      assert c.policies[..i + 1] == c.policies[..i] + [p];
      if p.namespace == pod.namespace {
        if IsPodMatchesPolicySelector(pod, former, p) || IsPodReferredOnIngressEgress(c, pod, p)
           || (former.Some? && IsPodReferredOnIngressEgress(c, former.value, p)) {
          NotYetListed(c, r, i);
          UniqueSnoc(r, p);
          r, processed := r + [p], processed + {NameOf(p)};
        }
      }
    }
    assert c.policies[..|c.policies|] == c.policies;
  }

  lemma NotYetListed(c: Cluster, r: seq<NetworkPolicy>, i: nat)
    requires UniquePolicies(c.policies) && i < |c.policies| && (forall p | p in r :: p in c.policies[..i])
    ensures !HasPolicyNamed(r, NameOf(c.policies[i]))
  {
    forall q | q in r ensures NameOf(q) != NameOf(c.policies[i]) {
      var j :| 0 <= j < i && c.policies[..i][j] == q;
      assert c.policies[j] == q;
    }
  }

  /** getReferredPoliciesForPod: every referred policy once. */
  method GetReferredPoliciesForPod(c: Cluster, tracked: set<NamespacedName>, pod: Pod, former: Option<Pod>)
    returns (r: seq<NetworkPolicy>)
    requires UniquePolicies(c.policies)
    ensures forall p :: p in r <==> p in c.policies && ReferredForPod(c, tracked, pod, former, p)
    ensures UniquePolicies(r)
  {
    hide ReferredHere, IsPodReferredOnIngressEgress, UniquePolicies;
    var processed;
    r, processed := ReferredInNamespace(c, pod, former);
    var refs := Enumerate(tracked);
    ListsMembers(refs, tracked);
    for i := 0 to |refs|
      invariant forall p :: p in r <==>
        && p in c.policies
        && (ReferredHere(c, pod, former, p) || (NameOf(p) in refs[..i] && EitherPodReferred(c, pod, former, p)))
      invariant UniquePolicies(r)
      invariant forall ref :: ref in processed <==> HasPolicyNamed(r, ref)
    {
      assert refs[..i + 1] == refs[..i] + [refs[i]];
      var policy := GetPolicy(c, refs[i]);
      if policy.Some? {
        forall p | p in c.policies && NameOf(p) == refs[i] ensures p == policy.value {
          UniqueNamed(c, p, policy.value);
        }
      }
      if refs[i] !in processed && policy.Some? {
        if IsPodReferredOnIngressEgress(c, pod, policy.value)
           || (former.Some? && IsPodReferredOnIngressEgress(c, former.value, policy.value)) {
          UniqueSnoc(r, policy.value);
          r, processed := r + [policy.value], processed + {refs[i]};
        }
      }
    }
    assert refs[..|refs|] == refs;
  }

  lemma NamedSnoc(r: seq<NetworkPolicy>, p: NetworkPolicy)
    ensures forall ref :: HasPolicyNamed(r + [p], ref) <==> HasPolicyNamed(r, ref) || ref == NameOf(p)
  {
    assert p in r + [p];
    forall ref | HasPolicyNamed(r, ref) ensures HasPolicyNamed(r + [p], ref) {
      var q :| q in r && NameOf(q) == ref;
      assert q in r + [p];
    }
  }

  /** The pod event handler sends one generic event for each referred policy; pods without an
      address are dropped. */
  method EnqueueForPod(c: Cluster, tracked: set<NamespacedName>, pod: Pod, former: Option<Pod>)
    returns (sent: seq<NetworkPolicy>)
    requires UniquePolicies(c.policies)
    ensures AddressOf(pod) == "" ==> sent == []
    ensures AddressOf(pod) != "" ==> forall p :: p in sent <==> p in c.policies && ReferredForPod(c, tracked, pod, former, p)
    ensures UniquePolicies(sent)
  {
    hide ReferredForPod;
    if |GetPodIP(pod)| == 0 {
      return [];
    }
    sent := GetReferredPoliciesForPod(c, tracked, pod, former);
  }

  // ---------------------------------------------------------------- namespaces

  predicate IsNamespaceLabelMatchPeer(ns: Namespace, peer: Peer) {
    peer.namespaceSelector.Some? && Matches(peer.namespaceSelector.value, ns.labels)
  }

  predicate IsNamespaceReferredIn(ns: Namespace, rules: seq<Rule>) {
    exists rule | rule in rules :: exists peer | peer in PeersOf(rule) :: IsNamespaceLabelMatchPeer(ns, peer)
  }

  predicate IsNamespaceReferredInPolicy(ns: Namespace, policy: NetworkPolicy) {
    IsNamespaceReferredIn(ns, policy.ingress) || IsNamespaceReferredIn(ns, policy.egress)
  }

  predicate ReferredForNamespace(tracked: set<NamespacedName>, ns: Namespace, former: Option<Namespace>, policy: NetworkPolicy) {
    && NameOf(policy) in tracked
    && (|| IsNamespaceReferredInPolicy(ns, policy)
        || (former.Some? && IsNamespaceReferredInPolicy(former.value, policy)))
  }

  method GetReferredPoliciesForNamespace(c: Cluster, tracked: set<NamespacedName>, ns: Namespace, former: Option<Namespace>)
    returns (r: seq<NetworkPolicy>)
    requires UniquePolicies(c.policies)
    ensures forall p :: p in r <==> p in c.policies && ReferredForNamespace(tracked, ns, former, p)
    ensures UniquePolicies(r)
  {
    hide IsNamespaceReferredInPolicy, UniquePolicies;
    NoneUnique();
    r := [];
    var refs := Enumerate(tracked);
    ListsMembers(refs, tracked);
    for i := 0 to |refs|
      invariant forall p :: p in r <==>
        p in c.policies && NameOf(p) in refs[..i] && ReferredForNamespace(tracked, ns, former, p)
      invariant UniquePolicies(r)
    {
      assert refs[..i + 1] == refs[..i] + [refs[i]];
      var policy := GetPolicy(c, refs[i]);
      if policy.Some? {
        forall p | p in c.policies && NameOf(p) == refs[i] ensures p == policy.value {
          UniqueNamed(c, p, policy.value);
        }
        if IsNamespaceReferredInPolicy(ns, policy.value)
           || (former.Some? && IsNamespaceReferredInPolicy(former.value, policy.value)) {
          UniqueSnoc(r, policy.value);
          r := r + [policy.value];
        }
      }
    }
    assert refs[..|refs|] == refs;
  }

  /** The namespace event handler sends a generic event for each referred policy. */
  method EnqueueForNamespace(c: Cluster, tracked: set<NamespacedName>, ns: Namespace, former: Option<Namespace>)
    returns (sent: seq<NetworkPolicy>)
    requires UniquePolicies(c.policies)
    ensures forall p :: p in sent <==> p in c.policies && ReferredForNamespace(tracked, ns, former, p)
    ensures UniquePolicies(sent)
  {
    hide ReferredForNamespace, UniquePolicies;
    sent := GetReferredPoliciesForNamespace(c, tracked, ns, former);
  }

  // ---------------------------------------------------------------- services

  predicate IsServiceMatchLabelSelector(c: Cluster, svc: Service, policyNamespace: string, peer: Peer) {
    if peer.namespaceSelector.Some? then
      var ns := GetNamespace(c, svc.namespace);
      && ns.Some? && Matches(peer.namespaceSelector.value, ns.value.labels)
      && (peer.podSelector.None? || (svc.selector.Some? && SelectsStrictly(peer.podSelector, svc.selector.value)))
    else
      && svc.namespace == policyNamespace
      && svc.selector.Some? && SelectsStrictly(peer.podSelector, svc.selector.value)
  }

  predicate IsServiceReferredOnEgress(c: Cluster, svc: Service, policy: NetworkPolicy) {
    exists rule | rule in policy.egress :: exists peer | peer in PeersOf(rule) ::
      && (peer.podSelector.Some? || peer.namespaceSelector.Some?)
      && IsServiceMatchLabelSelector(c, svc, policy.namespace, peer)
  }

  predicate PotentialMatch(egress: set<NamespacedName>, tracked: set<NamespacedName>, svc: Service, ref: NamespacedName) {
    ref in egress && (ref.namespace == svc.namespace || ref in tracked)
  }

  predicate ReferredForService(
    c: Cluster, egress: set<NamespacedName>, tracked: set<NamespacedName>, svc: Service, former: Option<Service>, policy: NetworkPolicy)
  {
    && !IsServiceHeadless(svc)
    && PotentialMatch(egress, tracked, svc, NameOf(policy))
    && (|| IsServiceReferredOnEgress(c, svc, policy)
        || (former.Some? && IsServiceReferredOnEgress(c, former.value, policy)))
  }

  /** getPotentialPolicyMatches */
  method GetPotentialPolicyMatches(svc: Service, egress: set<NamespacedName>, tracked: set<NamespacedName>)
    returns (r: set<NamespacedName>)
    ensures forall ref :: ref in r <==> PotentialMatch(egress, tracked, svc, ref)
  {
    r := {};
    var refs := Enumerate(egress);
    ListsMembers(refs, egress);
    for i := 0 to |refs|
      invariant forall ref :: ref in r <==> ref in refs[..i] && ref.namespace == svc.namespace
    {
      assert refs[..i + 1] == refs[..i] + [refs[i]];
      if refs[i].namespace == svc.namespace {
        r := r + {refs[i]};
      }
    }
    assert refs[..|refs|] == refs;
    r := r + (egress * tracked);
  }

  method GetReferredPoliciesForService(
    c: Cluster, egress: set<NamespacedName>, tracked: set<NamespacedName>, svc: Service, former: Option<Service>)
    returns (r: seq<NetworkPolicy>)
    requires UniquePolicies(c.policies)
    ensures forall p :: p in r <==> p in c.policies && ReferredForService(c, egress, tracked, svc, former, p)
    ensures UniquePolicies(r)
  {
    hide IsServiceReferredOnEgress, UniquePolicies, PotentialMatch;
    NoneUnique();
    r := [];
    if IsServiceHeadless(svc) {
      return;
    }
    var potential := GetPotentialPolicyMatches(svc, egress, tracked);
    var refs := Enumerate(potential);
    ListsMembers(refs, potential);
    for i := 0 to |refs|
      invariant forall p :: p in r <==>
        p in c.policies && NameOf(p) in refs[..i] && ReferredForService(c, egress, tracked, svc, former, p)
      invariant UniquePolicies(r)
    {
      assert refs[..i + 1] == refs[..i] + [refs[i]];
      var policy := GetPolicy(c, refs[i]);
      if policy.Some? {
        forall p | p in c.policies && NameOf(p) == refs[i] ensures p == policy.value {
          UniqueNamed(c, p, policy.value);
        }
        if IsServiceReferredOnEgress(c, svc, policy.value)
           || (former.Some? && IsServiceReferredOnEgress(c, former.value, policy.value)) {
          UniqueSnoc(r, policy.value);
          r := r + [policy.value];
        }
      }
    }
    assert refs[..|refs|] == refs;
  }

  /** The service event handler sends a generic event for each referred policy. */
  method EnqueueForService(
    c: Cluster, egress: set<NamespacedName>, tracked: set<NamespacedName>, svc: Service, former: Option<Service>)
    returns (sent: seq<NetworkPolicy>)
    requires UniquePolicies(c.policies)
    ensures forall p :: p in sent <==> p in c.policies && ReferredForService(c, egress, tracked, svc, former, p)
    ensures UniquePolicies(sent)
  {
    hide ReferredForService, UniquePolicies;
    sent := GetReferredPoliciesForService(c, egress, tracked, svc, former);
  }
}
