# Amazon network policy controller: a verified model

The controller resolves Kubernetes network policies into lists of addresses and ports and
publishes them across size-bounded `PolicyEndpoint` and `ClusterPolicyEndpoint` objects. This
project models three connected parts and proves what they guarantee together.

* **The incremental packing reconciler** (`pkg/policyendpoints`, `pkg/equality`): purge what is
  stale, keep what matches where it is, pack the rest into free capacity, merge rules of equal
  identity, then create, update and delete objects. Stores are maps from object names to specs, a
  reconciliation is a sequence of writes that may stop anywhere, and every order that a Go map
  iteration, an API listing or a generated name can take is covered by quantifying over it.
* **The endpoint resolver** (`pkg/resolvers/endpoints.go`, `pkg/k8s`): ingress rules, egress rules,
  named ports and the ClusterIP ports of services in front of selected pods.
* **The dependency index** (`PolicyTracker`, the `policies_for_*` resolvers and the policy event
  handler): which policies a changed object can affect.

The three meet in `Controller`, a state machine in which pods, namespaces, services and policies
change, changes queue the policies they refer to, and reconciliations of queued policies succeed or
are interrupted. Its main theorem, `QuietPoliciesAreExact`, says that at every moment of every run a
policy that is not on the queue admits exactly the ingress and egress traffic it describes in the
present cluster, and lists exactly the pods it applies to. `Handlers` shows that the event handlers
take the steps of that machine.

What a policy describes is written in the words of `PolicyMeaning`, by the fields of the cluster's objects
and without the functions of the resolver or the index.

`dafny verify dfyconfig.toml` checks the whole project.

## Modules

| file | content |
|---|---|
| `Basics`, `Permutations`, `Flattening`, `Sorting`, `Framing` | bags of keys, listings, nested accumulation, sorting, delimited text |
| `PolicyInfo`, `Labels`, `Kubernetes` | published objects and the traffic they admit, label selectors, cluster objects and look-ups |
| `PolicyMeaning`, `Lookups` | the words in which results are described: addresses, readiness, services, declared ports; the look-ups find what the words say |
| `RuleKeys`, `Combine`, `Equality` | identity keys, merging of rules, semantic equality |
| `Packing`, `Purge`, `Reconciler`, `Placement`, `Capacity` | the computation of a plan, its placement guarantees, the number of objects it creates |
| `Store`, `WriteEffects`, `Convergence`, `UpdateGaps`, `Ownership` | writes of a round, their meaning, interrupted runs, which traffic stays admitted while a round runs, whose the objects are |
| `RoundResult`, `Repacking`, `Refilling`, `ReorderedCopies`, `QuietRounds`, `Quiescence`, `Settling`, `MergeOrder`, `SingleObject`, `Restless` | what a complete round leaves, exactly when further rounds are quiet, how many of them write, merged rules, examples |
| `ClusterCombine`, `ClusterEndpoints` | the cluster-wide variant |
| `Endpoints`, `EgressEndpoints`, `IngressExactness`, `ServiceWays`, `EgressExactness`, `ServicePorts`, `ServiceListening`, `ResolutionValidity` | resolution, its exactness, target-port agreement, which service ports lead to a policy port and which of them are published |
| `References`, `IndexExactness`, `Dependencies`, `NamespaceDependencies`, `ServiceDependencies`, `OverlookedServices`, `AddresslessPods`, `MissedChanges`, `Tracker` | the dependency index, its precision and completeness, what it overlooks, the tracker |
| `Controller`, `Handlers` | everything together, and the event handlers as its steps |

## Assumptions

* The chunk size is positive, as the packing loops need.
* SHA-256 over framed text is an injective function; the framed text itself stands for the hash.
* Rules have exactly one of address and domain name, domain names have no exceptions, ports and end
  ports are at least 1, and key fields contain none of the delimiters written around them
  (`ValidRule`, `ValidClusterRule`, `ValidPod`). `ResolutionIsValid` derives this for resolved rules
  from well-formed cluster objects; `NilProtocolCollides` shows that it is needed.
* Objects in the store have distinct non-empty names, and reads reflect the store.
* Addresses and domain names are matched by uninterpreted relations; `0.0.0.0/0` and `::/0` together
  contain every address where a rule without peers is concerned.
* No NetworkPolicy has the namespace and name of an ApplicationNetworkPolicy: both list their
  objects by the same index (`pkg/policyendpoints/manager.go:112` and `:193`), and `Controller` gives
  each policy a store of its own.
* In cluster policies no domain name is spelled like an address of the same list
  (`ClusterCombine.AddressesApart`), since both are merged under the same text.
* Service ports differ in port or protocol, and named ports of policies and named target ports are not
  empty; the API server replaces an empty target port by the service port. `EmptyTargetNameEscapes`
  shows that the bypass check needs the latter.
* For the dependency index: namespaces have unique names, and of the policy in question every peer has a
  selector or an IP block and egress pod selectors cannot stop matching when labels are added, as
  those built from equality, `In` and `Exists` (`PositiveMonotone`): a proper policy. Other policies of the cluster may
  have any peers. `EmptyPeerMissesPod` shows a missed change without the first, and
  `SelectorMissesExactly` that the second is exactly what a selector needs. Which changes of services
  and of pods without an address are missed is not assumed but proved (`ServiceMissedExactly`,
  `DroppedExactly`).
* The containers of a pod and their ports do not change after its creation, where the event of a pod
  without an address is concerned.

The theorems are about something: `Store.Manager.Reconcile` and `EgressEndpoints.Resolve` produce a
valid round and a resolution for every well-formed store and every policy, `Restless.TwoRoundValid`
writes rounds out explicitly, and `Controller.StartIsQuiet` gives states from which runs start.

## Findings

* Quiescence does not follow from distinct combine keys alone. When stored rules are desired rules
  with their ports or exceptions in another order, the key differs while the comparison finds the
  specs equal; the update is skipped, and a later round that visits the map in another order may
  write (the comment at `pkg/policyendpoints/manager.go:436` suspects as much). `QuietExactly` gives
  the exact condition on the store that the first round left: per direction, either no object holds
  such copies, or a single one does, it holds no more than the chunk size, and every other object is
  full or is left empty by the purge while that one is not. `RoundsSettle` bounds the damage: at most
  as many further rounds write as objects held copies. `QuiescenceNeedsNoReorderedCopies` gives a
  concrete store that does not rest. Where desired rules are merged, `SingleObjectQuiet` shows that
  one object that holds everything is quiet.
* A round is not safe for all traffic while it runs. Traffic that is published and desired is admitted
  at every prefix of the writes exactly when it is `Covered` (`StaysExactly`): a created object will admit
  it, a deleted one did, or some object admits it from its update on, no later than the update until
  which some object still does. Desired rules that are stored as they stand are covered
  (`PrefixKeepsPublishedRule`); a rule that moves to an object updated later, because it is stored as a
  reordered copy, is gone between two updates (`ExchangeOpensGap`, `MovedRuleOpensGap`).
* Merging cluster rules has no all-ports case. `ClusterCombineExact` shows that it preserves meaning
  exactly when no rule for all ports shares its address and action with a rule for some ports, and
  `ClusterRoundExact` that a round does exactly when no survivor of its plan holds such a pair.
* Of two listen ports of a service that lead to the same policy port, at most one is published: the
  first way in, if it is not diverted (`SecondListenPortUnpublished`). `ListensExactly` and
  `RuleListensExactly` show exactly when nothing is lost.
* The index overlooks changes of services: exactly those that `Overlooked` lists are missed by some
  policy (`ServiceMissedExactly`), such as a service that becomes headless or a new one that has a
  ClusterIP but no selector. Runs of `Controller` exclude them.
* The pod handler drops events of pods without an address. A dropped change is missed by some policy
  exactly when it `Slips` (`DroppedExactly`): a pod that names a container port is created or deleted, or
  its labels change, or a ready pod loses its address. In particular every created pod that names a port
  is missed by some policy (`AddresslessBackingPodIsMissed`). Runs of `Controller` exclude only dropped
  changes that slip, and of these allow the ones whose pods are never ready and stand behind no service.

## Model

| member | source | states |
|---|---|---|
| `Controller.QuietPoliciesAreExact` | internal/controllers/policy_controller.go:142-233 | at every state of every run of changes, interrupted and complete reconciliations, the objects of a proper policy that is not queued admit exactly the ingress and egress traffic that it describes in the present cluster and list exactly the pods it applies to there; other policies may have any peers, and dropped pod events are part of the runs unless the change slips |
| `Controller.QuietPoliciesAsDescribed` | pkg/resolvers/endpoints.go:198-283 | in the same states, with service ports described by where traffic is delivered: only described egress traffic is admitted, and all of it when every service publishes all that leads to a policy port |
| `Controller.RunKeeps` | internal/controllers/policy_controller.go:142-233 | every state of a run keeps the index exact, the stores well-formed and every proper unqueued policy in sync |
| `Controller.StartIsQuiet` | internal/controllers/policy_controller.go:109-140 | a cluster without policies and an empty tracker and queue are a state from which runs start |
| `Controller.StepKeeps` | internal/eventhandlers/pod.go:91-109 | each kind of step (pod, namespace, service or policy change, interrupted or complete reconciliation) keeps that invariant; so does a dropped pod event that does not slip |
| `Controller.ReconcilePolicy` | pkg/policyendpoints/manager.go:101-164 | resolving and reconciling leaves a well-formed store whose objects still refer to the policy after any number of accepted writes, and when it succeeds the store shows exactly what the policy resolves to |
| `Controller.RunKeepsOwned` | internal/controllers/policy_controller.go:142-233 | at every state of every run, all published objects of a policy carry its name and namespace, so that the next listing by them finds all objects |
| `Controller.RunKeepsIsolating` | internal/controllers/policy_controller.go:142-233 | at every state of every run, all objects of a policy that is not queued isolate exactly the policy's types |
| `Controller.InSyncIngress` | pkg/policyendpoints/manager.go:101-164 | a store in sync admits exactly the ingress traffic that the policy describes |
| `Controller.InSyncEgress` | pkg/policyendpoints/manager.go:101-164 | the same for egress traffic, a service being reached on the first way in to a policy port |
| `Controller.InSyncPods` | pkg/policyendpoints/manager.go:101-164 | a store in sync lists exactly the ready, selected pods that are not on the host network |
| `Convergence.CompleteRoundMeaning` | pkg/policyendpoints/manager.go:265-334 | whatever the store held, after a complete round the published objects admit exactly the traffic of the desired rules, per direction |
| `Convergence.CompleteRoundPods` | pkg/policyendpoints/manager.go:651-692 | after a complete round the published pods are exactly the desired pods |
| `Convergence.PrefixAdmitsOnlyOldOrDesired` | pkg/policyendpoints/manager.go:128-157 | after every prefix of the writes only traffic of the old store or of the desired rules is admitted |
| `Convergence.PrefixPodsOldOrDesired` | pkg/policyendpoints/manager.go:128-157 | after every prefix of the writes only old or desired pods are published |
| `Convergence.PrefixKeepsPublishedPod` | pkg/policyendpoints/manager.go:534-561 | a desired pod that was published stays published after every prefix of the writes |
| `UpdateGaps.StaysExactly` | pkg/policyendpoints/manager.go:128-157 | traffic that is published and desired is admitted after every prefix of the writes if and only if it is covered: by a created object, by a deleted one before the round, or by an object from its update on, no later than the update until which some object still admits it |
| `UpdateGaps.KeptRuleCovered` | pkg/policyendpoints/manager.go:517-561 | the traffic of a desired rule that is stored as it stands is covered |
| `UpdateGaps.PrefixKeepsPublishedRule` | pkg/policyendpoints/manager.go:517-561 | so it stays admitted after every prefix of the writes |
| `Convergence.PrefixKeepsStoreValid` | pkg/policyendpoints/manager.go:128-157 | every prefix of the writes leaves a well-formed store |
| `Convergence.RunConverges` | pkg/policyendpoints/manager.go:101-164 | after any sequence of interrupted rounds with changing desired sets, one complete round publishes exactly the latest desired traffic and pods |
| `Convergence.RunAdmitsOnlyOldOrDesired` | pkg/policyendpoints/manager.go:101-164 | over a whole run of interrupted rounds, traffic is admitted only if the initial store or some desired set admits it |
| `Convergence.RunKeepsStoreValid` | pkg/policyendpoints/manager.go:101-164 | runs of interrupted rounds keep the store well-formed |
| `Ownership.CreatedHeader` | pkg/policyendpoints/manager.go:393-426 | every created object refers to the policy by name and namespace, selects the policy's pods and isolates the policy's types |
| `Ownership.UpdatedHeader` | pkg/policyendpoints/manager.go:485-563 | every updated object keeps its reference and its pod selector and isolates the policy's present types |
| `Ownership.PrefixKeepsReferences` | pkg/policyendpoints/manager.go:101-164 | after every prefix of the writes all objects refer to the policy if all did before |
| `Ownership.RunKeepsReferences` | pkg/policyendpoints/manager.go:101-164 | the same over whole runs of interrupted rounds |
| `Ownership.RoundIsolates` | pkg/policyendpoints/manager.go:485-563 | after a complete round every object isolates exactly the policy's types, in some order |
| `Quiescence.QuietExactly` | pkg/policyendpoints/manager.go:101-157 | after a complete round from any store, when no two desired rules would be merged: all further rounds with the same policy and endpoints write nothing, for every listing and map order, if and only if the store that the round left rests |
| `Quiescence.WritesExactly` | pkg/policyendpoints/manager.go:265-324 | a store that holds the desired endpoints up to order has some round that writes exactly when it does not rest |
| `Quiescence.QuietIffRestored` | pkg/policyendpoints/manager.go:136-150 | a round on such a store writes nothing exactly when packing gives every object, up to order, the rules that the purge took from it |
| `Quiescence.TwoHoldersWrite` | pkg/policyendpoints/manager.go:567-606 | when two objects hold reordered copies in a direction, one of two orders of the map makes a round write, for every chunk size |
| `Quiescence.OverfullWrites` | pkg/policyendpoints/manager.go:577-594 | an object with copies and more rules than the chunk size makes a round write |
| `Quiescence.RoomyFirstWrites` | pkg/policyendpoints/manager.go:577-594 | another object with room that is packed first takes a copy's rule away, so that a round writes |
| `Quiescence.SecondRoundWritesNothing` | pkg/policyendpoints/manager.go:136-144 | after a complete round that left no reordered copy, a second one with the same policy and endpoints writes nothing |
| `RoundResult.RoundReaches` | pkg/policyendpoints/manager.go:485-563 | whatever the store was, a complete round leaves every desired rule once up to order, every desired pod once and nothing else, and no empty object beside another |
| `Settling.RoundsSettle` | pkg/policyendpoints/manager.go:101-157 | of the complete rounds that follow a first one with the same endpoints, at most as many write as objects held reordered copies to begin with, whatever the orders |
| `Settling.WritingRoundsBounded` | pkg/policyendpoints/manager.go:101-157 | the same from any store that holds the desired endpoints up to order |
| `Settling.HoldersShrink` | pkg/policyendpoints/manager.go:136-150 | a further round leaves copies only where they were, and one that writes replaces those of at least one object |
| `Settling.NoCopiesKept` | pkg/policyendpoints/manager.go:136-150 | rounds make no reordered copies |
| `SingleObject.SingleObjectQuiet` | pkg/policyendpoints/manager.go:358-381 | when the round leaves one object and the desired endpoints fit into one, further rounds write nothing for every map order, even when desired rules are merged, provided different ports have different texts |
| `SingleObject.OneObjectLeft` | pkg/policyendpoints/manager.go:485-563 | from at most one object, endpoints that fit into one object are left in one object |
| `MergeOrder.MergeIgnoresOrder` | pkg/policyendpoints/manager.go:338-381 | permuted lists are merged to the same rules up to order, for every order of the map |
| `Repacking.PlanKeepsAll` | pkg/policyendpoints/manager.go:304-321 | when every desired entry is held exactly once, the plan creates and deletes nothing and updates every object in place, including a single empty one |
| `Restless.ReorderedCopiesKeepWriting` | pkg/policyendpoints/manager.go:436-463 | for every store and chunk size: when a complete round leaves reordered copies in two objects, some further round with the same policy and endpoints writes |
| `Restless.QuiescenceNeedsNoReorderedCopies` | pkg/equality/semantic.go:74-100 | such a store exists |
| `Restless.ExchangeOpensGap` | pkg/policyendpoints/manager.go:128-150 | when two full objects exchange their rules, traffic that was admitted and is desired is not admitted after some prefix of the writes |
| `Restless.MovedRuleOpensGap` | pkg/policyendpoints/manager.go:128-150 | such a round exists |
| `Store.Manager.Reconcile` | pkg/policyendpoints/manager.go:101-164 | the writes that took effect are a prefix of creates, then updates, then deletes of a valid round, all of them on success, and the store is the old one with them applied |
| `Store.Manager.CreateAll` | pkg/policyendpoints/manager.go:128-134 | creates in order and stops when the API server fails |
| `Store.Manager.UpdateAll` | pkg/policyendpoints/manager.go:136-150 | patches exactly the objects whose stored spec is not semantically equal |
| `Store.Manager.DeleteAll` | pkg/policyendpoints/manager.go:152-157 | deletes in order and stops when the API server fails |
| `Store.ComputePolicyEndpoints` | pkg/policyendpoints/manager.go:265-324 | the three lists are the merged plan for the existing objects, for some order of the maps |
| `Store.ProcessPolicyEndpoints` | pkg/policyendpoints/manager.go:326-334 | merges the rules of every object and leaves its name, header and pods alone |
| `Store.RoundNames` | pkg/policyendpoints/manager.go:304-321 | updates and deletes of a round name different stored objects and together all of them |
| `WriteEffects.CreatedInStore` | pkg/policyendpoints/manager.go:128-134 | after a round every created object is stored under its generated name |
| `WriteEffects.UpdatedInStore` | pkg/policyendpoints/manager.go:136-150 | after a round every updated object is stored as planned, or its stored spec was already equal |
| `WriteEffects.OnlySurvivors` | pkg/policyendpoints/manager.go:152-157 | after a round the store holds created and updated objects only |
| `Reconciler.ComputeEndpoints` | pkg/policyendpoints/manager.go:265-321 | the computation with its maps, passes and name sets yields the plan of the declarative definition, for some valid order |
| `Reconciler.ProcessExisting` | pkg/policyendpoints/manager.go:485-563 | one pass over the existing objects leaves exactly the keys nobody holds and splits the purged objects into kept and bare ones |
| `Reconciler.PurgeOne` | pkg/policyendpoints/manager.go:517-561 | one object keeps the first occurrence of every wanted entry, in order, and gets the current header, whichever branch is taken |
| `Reconciler.SplitCandidates` | pkg/policyendpoints/manager.go:304-311 | candidates are updated when they received something and deleted otherwise |
| `Reconciler.NeededExactly` | pkg/policyendpoints/manager.go:294-311 | the recorded names are exactly those of the slots that one of the three passes added to |
| `Reconciler.IndexByKey` | pkg/policyendpoints/manager.go:498-505 | the map of desired rules by key, later entries winning |
| `Placement.ExactlyOnce` | pkg/policyendpoints/manager.go:293-321 | every desired key sits in exactly one surviving object, exactly once, and survivors hold nothing else |
| `Placement.UpdateOrigin` | pkg/policyendpoints/manager.go:517-561 | an updated object is an existing one, purged, refreshed, with entries appended and no list beyond the chunk size unless it already was |
| `Placement.KeptIsUpdated` | pkg/policyendpoints/manager.go:547-560 | an object that keeps an entry survives with it in place |
| `Placement.PlanShape` | pkg/policyendpoints/manager.go:304-321 | deleted objects hold nothing, at least one object survives, an empty one only alone, new objects respect the chunk size |
| `Placement.PlanNames` | pkg/policyendpoints/manager.go:304-321 | the existing objects are partitioned into updates and deletes |
| `Capacity.CreateCount` | pkg/policyendpoints/manager.go:567-692 | the number of new objects is the maximum over the three dimensions of the chunks that the free capacity leaves, or one for an empty start |
| `Capacity.CreateCountIsOptimal` | pkg/policyendpoints/manager.go:567-692 | no placement that leaves kept entries in place and respects the chunk size needs fewer new objects |
| `Capacity.NothingNeeded` | pkg/policyendpoints/manager.go:312-321 | with no existing object, nothing needs to be placed exactly when nothing is desired |
| `Packing.Pack` | pkg/policyendpoints/manager.go:567-606 | the loops over the three slices and the new chunks compute one packing pass over their concatenation and the names of the slots touched |
| `Packing.PackList` | pkg/policyendpoints/manager.go:577-594 | the two-pointer loop gives every slot of one slice its consecutive share |
| `Packing.AdvanceChunkEnd` | pkg/policyendpoints/manager.go:581-589 | the inner loop ends at the last key the slot has room for |
| `Packing.CreateObjects` | pkg/policyendpoints/manager.go:598-604 | the remaining keys become new objects of at most the chunk size |
| `Packing.PackConserves` | pkg/policyendpoints/manager.go:576-604 | a pass adds exactly the new entries to what was there, as bags of keys |
| `Packing.PackBounds` | pkg/policyendpoints/manager.go:576-604 | lists grow at the end only and never beyond the larger of chunk size and kept length; new objects appear only when every earlier slot is full |
| `Packing.OffsetClosedForm` | pkg/policyendpoints/manager.go:577-589 | the slots together take the smaller of the number of entries and the free capacity |
| `Packing.TouchedExactly` | pkg/policyendpoints/manager.go:591-593 | a slot's name is recorded exactly when it received an entry |
| `Purge.PurgeList` | pkg/policyendpoints/manager.go:518-525 | the purge loop keeps first occurrences of wanted keys and removes them from the map |
| `Purge.KeptListsBag` | pkg/policyendpoints/manager.go:517-540 | over all objects every wanted key that was held is kept exactly once |
| `Combine.CombineRulesEndpoints` | pkg/policyendpoints/manager.go:358-380 | the loop over the combine map yields its merged entries in some order |
| `Combine.CombinePreservesMeaning` | pkg/policyendpoints/manager.go:358-380 | merged rules admit exactly the traffic of the rules they merge, for every result order |
| `Combine.CombineShape` | pkg/policyendpoints/manager.go:358-380 | merged rules are well-formed, have distinct combine keys, are no more than before, and have no ports exactly when a rule of their group has none |
| `Combine.CombineOnlyReorders` | pkg/policyendpoints/manager.go:358-380 | without shared combine keys merging is a permutation |
| `Combine.CombineKeyIdentity` | pkg/policyendpoints/manager.go:338-356 | equal combine keys mean the same address or domain name and the same exceptions up to order |
| `Combine.DeduplicatePorts` | pkg/policyendpoints/manager.go:925-951 | the loop keeps the first port of every key |
| `Combine.PortKeyExactly` | pkg/policyendpoints/manager.go:925-951 | two ports count as duplicates exactly when they agree in port and end port and differ at most in spelling out TCP |
| `Combine.DedupMeaning` | pkg/policyendpoints/manager.go:925-951 | deduplicated ports admit exactly what the ports did and are empty only if they were |
| `RuleKeys.EndpointInfoKeyInjective` | pkg/policyendpoints/manager.go:438-481 | equal keys mean equal rules: address, exceptions in order, ports in order, absent versus any number, range versus single port |
| `RuleKeys.ClusterEndpointInfoKeyInjective` | pkg/policyendpoints/clusterpolicyendpoints_chunking.go:281-297 | the same for cluster rules and their action |
| `RuleKeys.NilProtocolCollides` | pkg/policyendpoints/manager.go:465-472 | a protocol spelled like the absent one collides with it |
| `Equality.EqualByKey` | pkg/equality/semantic.go:81-100 | the count-up, count-down loops return true exactly when the bags of keys coincide |
| `Equality.EqualPolicyEndpointSpec` | pkg/equality/semantic.go:17-40 | decides equality of headers and of the bags of canonical texts |
| `Equality.SpecEqualExact` | pkg/equality/semantic.go:17-40 | specs compare equal exactly when they agree up to permutation of rules, pods, policy types, and of ports and exceptions inside rules |
| `Equality.EndpointTextExact` | pkg/equality/semantic.go:74-79 | two rules have the same canonical text exactly when they differ at most in the order of ports and exceptions |
| `Equality.EqualRulesAdmitSame` | pkg/equality/semantic.go:81-100 | rule lists that compare equal admit the same traffic |
| `ClusterCombine.CombineClusterRulesEndpoints` | pkg/policyendpoints/manager.go:897-922 | the loop yields the merged entries of the cluster map in some order, skipping entries without address and domain name |
| `ClusterCombine.ClusterCombineExact` | pkg/policyendpoints/manager.go:897-922 | merging preserves which action applies to which flow, for every network, if and only if no group mixes a rule for all ports with a rule for some ports |
| `ClusterCombine.ClusterCombineSound` | pkg/policyendpoints/manager.go:897-922 | merging never applies an action to new traffic, mixed groups included |
| `ClusterCombine.ClusterCombineShape` | pkg/policyendpoints/manager.go:897-922 | merged cluster rules have distinct keys and are no more than before |
| `ClusterCombine.NamelessSkipped` | pkg/policyendpoints/manager.go:898-922 | rules with neither an address nor a domain name are skipped |
| `ClusterEndpoints.ComputeClusterPolicyEndpoints` | pkg/policyendpoints/manager.go:834-885 | the three lists are the merged plan of the cluster variant |
| `ClusterEndpoints.EqualClusterPolicyEndpointSpec` | pkg/equality/semantic.go:42-68 | decides equality of tier, priority, subject, reference and of the bags of canonical texts |
| `ClusterEndpoints.ClusterRulesEqualExact` | pkg/equality/semantic.go:106-130 | cluster rule lists compare equal exactly when they are permutations up to the order of ports |
| `ClusterEndpoints.ClusterSpecEqualExact` | pkg/equality/semantic.go:42-68 | cluster specs compare equal exactly when their headers agree and their rules and pods are permutations, up to the order of ports |
| `ClusterEndpoints.EqualClusterRulesApplySame` | pkg/equality/semantic.go:106-130 | cluster rule lists that compare equal apply the same actions to the same flows |
| `ClusterEndpoints.ClusterKeysConserved` | pkg/policyendpoints/clusterpolicyendpoints_chunking.go:28-235 | every desired cluster rule is held exactly once by the survivors before merging |
| `ClusterEndpoints.WrittenObjectsCurrent` | pkg/policyendpoints/clusterpolicyendpoints_chunking.go:89-118 | every created or updated object carries the policy's present tier, priority and subject |
| `ClusterEndpoints.CreatedNamesPolicy` | pkg/policyendpoints/clusterpolicyendpoints_chunking.go:238-270 | every created cluster object names the policy |
| `ClusterEndpoints.WrittenNamePolicy` | pkg/policyendpoints/clusterpolicyendpoints_chunking.go:89-118 | when all existing objects name the policy, so do all that are created or updated |
| `ClusterEndpoints.ClusterRoundExact` | pkg/policyendpoints/manager.go:834-922 | written objects apply exactly the desired rules, for every network, action and flow, if and only if no survivor of the plan holds a rule for all ports together with one for some ports of the same address and action |
| `ClusterEndpoints.ClusterRoundMeaning` | pkg/policyendpoints/manager.go:834-922 | written objects apply an action only where a desired rule does, and everywhere one does when no desired group is mixed |
| `Endpoints.ComputeIngressEndpoints` | pkg/resolvers/endpoints.go:85-138 | the nested loops accumulate the endpoints of every rule from ports resolved once per rule |
| `Endpoints.ResolveIngressPorts` | pkg/resolvers/endpoints.go:142-170 | numeric ports without pods; with a named port, the deduplicated ports of the ready destination pods |
| `Endpoints.GetPortList` | pkg/resolvers/endpoints.go:355-379 | the ports of one pod that the policy ports stand for |
| `Endpoints.DedupPorts` | pkg/resolvers/endpoints.go:716-736 | one port per text, in some order |
| `Endpoints.ComputePodSelectorEndpoints` | pkg/resolvers/endpoints.go:285-321 | the ready pods that the policy selects, without host-network pods |
| `IngressExactness.IngressExact` | pkg/resolvers/endpoints.go:85-191 | resolved ingress rules admit a flow exactly when some rule covers its port (named ports over the ready destination pods) and has no peers, a containing IP block, or a peer that selects a ready pod with the address |
| `IngressExactness.IngressPortsMeaning` | pkg/resolvers/endpoints.go:142-170 | resolved ports admit exactly what the rule's ports describe: read on the ready pods that the policy applies to when one of them is a name, and as they stand when none is |
| `IngressExactness.NamedRuleAdmits` | pkg/resolvers/endpoints.go:148-169 | as soon as one port of a rule is a name, the resolved ports admit what any port of the rule, name or number, covers on any ready pod that the policy applies to |
| `IngressExactness.UnnamedRuleAdmits` | pkg/resolvers/endpoints.go:148-166 | without a name they admit exactly what the numbers and protocols cover, pods or no pods |
| `IngressExactness.DedupExact` | pkg/resolvers/endpoints.go:716-736 | deduplication drops repetitions and nothing else |
| `Kubernetes.LookupContainerPortAndName` | pkg/k8s/pod_utils.go:32-54 | a number stands for itself; a name yields a declared container port of that name and protocol |
| `Kubernetes.FirstContainerPort` | pkg/resolvers/endpoints.go:664-681 | the controller's and Kubernetes' own resolution of a named port take the same, first declared container port |
| `Lookups.NamedLookup` | pkg/k8s/pod_utils.go:32-54 | a name is looked up as the first container port, in the order of containers and ports, with this name and protocol, and not at all when none is declared |
| `Lookups.NumberedLookup` | pkg/k8s/pod_utils.go:32-54 | a number is looked up as itself with the name of the first container port that has this number and protocol, or without a name |
| `Lookups.ServingLookup` | pkg/resolvers/endpoints.go:664-681 | the first declared container port with this name and protocol, an empty protocol read as TCP |
| `Lookups.BehindInOrder` | pkg/resolvers/endpoints.go:683-714 | the pods that the selector of a service matches are those of its namespace with all its labels, in the order of the listing |
| `EgressEndpoints.ComputeEgressEndpoints` | pkg/resolvers/endpoints.go:198-265 | the nested loops accumulate pods with their own ports and the ClusterIPs of matching services, per namespace |
| `EgressEndpoints.GetMatchingServiceClusterIPs` | pkg/resolvers/endpoints.go:463-574 | the services of a namespace whose selector the peer matches, with the listen ports that survive the bypass check |
| `EgressEndpoints.Resolve` | pkg/resolvers/endpoints.go:45-80 | the three lists are a possible resolution of the policy |
| `EgressExactness.EgressExact` | pkg/resolvers/endpoints.go:198-283 | resolved egress rules admit a flow exactly when some rule has no peers and covers the port numerically, a block that contains the address and covers it numerically, a ready selected pod with the address on its own ports, or a selected service with the ClusterIP on the listen port of the first way in to a policy port, extended to its range and not diverted |
| `EgressExactness.ServiceMeaning` | pkg/resolvers/endpoints.go:503-563 | what one service contributes admits exactly the flows to its ClusterIP on the listen ports of the first ways in to the rule's ports, without those that are diverted to a forbidden container port |
| `EgressExactness.EgressAddresses` | pkg/resolvers/endpoints.go:198-283 | every resolved egress rule has an address of its policy rule, of a ready pod, or of a service whose ClusterIP is neither empty nor None |
| `EgressExactness.HeadlessUnpublished` | pkg/k8s/service_utils.go:48-54 | a service whose ClusterIP is empty or None contributes nothing |
| `ServicePorts.TargetPortAgreement` | pkg/resolvers/endpoints.go:524-555 | for a ClusterIP port from a numeric policy port without range, every pod behind the service receives the traffic on a port that a number, a range or a protocol-only port of the rule covers |
| `ServicePorts.PublishedPortsAgree` | pkg/resolvers/endpoints.go:580-714 | the same for every port of a published service entry |
| `ServicePorts.EmptyTargetNameEscapes` | pkg/resolvers/endpoints.go:595-597 | an empty target-port name escapes the bypass check |
| `ServiceListening.ListensExactly` | pkg/resolvers/endpoints.go:524-555 | a service is published for a policy port, with or without a range, on exactly the listen ports through which it may be reached, for every flow, if and only if the first way in covers the others |
| `ServiceListening.RuleListensExactly` | pkg/resolvers/endpoints.go:524-563 | for all ports of a rule together: published are exactly the listen ports that lead to one of them, for every flow, if and only if each of these is covered by the first way in to some port of the rule or by a port that names none |
| `ServiceListening.EgressDescribed` | pkg/resolvers/endpoints.go:198-283 | resolved egress admits only traffic that services deliver to what the policy names, and all of it when every service publishes all that leads to the ports of every rule |
| `ServiceListening.OneWayPublished` | pkg/resolvers/endpoints.go:683-714 | all of it is published when no policy port can be reached through two listen ports of one service |
| `ServiceListening.BypassExactly` | pkg/resolvers/endpoints.go:580-636 | the bypass check holds exactly when the named target of the service port is, on some pod behind the service, a port that no number or range of the rule covers |
| `ServiceWays.MatchedLeads` | pkg/resolvers/endpoints.go:683-714 | a listen port that is found belongs to a service port whose target is the policy port or stands for it on a backing pod |
| `ServiceWays.UnmatchedLeadsNowhere` | pkg/resolvers/endpoints.go:683-714 | none is found only when no service port leads to the policy port |
| `ServiceWays.MatchedExactly` | pkg/resolvers/endpoints.go:683-714 | the listen port found is that of the first way in: the first service port whose target is the policy port, otherwise the first one that leads there on the first backing pod on which any does |
| `ServiceWays.BypassMeaning` | pkg/resolvers/endpoints.go:580-636 | the bypass check holds exactly when the first service port with this listen port and a named target has a target name that some pod serves on a port that the rule does not cover |
| `ServiceWays.AllowedMeaning` | pkg/resolvers/endpoints.go:636-662 | a port passes the check exactly when the numbers, ranges and protocol-only ports of the rule cover it, whatever the target |
| `ServiceListening.SecondListenPortUnpublished` | pkg/resolvers/endpoints.go:524-528 | of two listen ports with the same target only the first is published |
| `ResolutionValidity.ResolutionIsValid` | pkg/resolvers/endpoints.go:45-80 | every resolution of a well-formed policy in a well-formed cluster meets what the reconciler relies on |
| `References.GetReferredPoliciesForPod` | pkg/resolvers/policies_for_pod.go:18-71 | returns each policy once, exactly those that select or refer to the pod or its former version here, or refer to it and are tracked |
| `References.EnqueueForPod` | internal/eventhandlers/pod.go:91-109 | a pod without an address sends nothing, any other pod one generic event for each policy it refers to and no others |
| `References.EnqueueForNamespace` | internal/eventhandlers/namespace.go:73-86 | a namespace sends one generic event for each policy it refers to and no others |
| `References.EnqueueForService` | internal/eventhandlers/service.go:88-101 | a service sends one generic event for each policy it refers to and no others |
| `Handlers.Deliver` | internal/eventhandlers/policy.go:106-119 | each generic event adds one request with the policy's namespace and name after the batch period, in order, and leaves an up-to-date tracker as it is |
| `Handlers.PodEvent` | internal/eventhandlers/pod.go:54-109 | handling the event of a changed pod, and each generic event that it sends, takes the controller a pod step; a dropped event does unless the change slips |
| `Handlers.NamespaceEvent` | internal/eventhandlers/namespace.go:39-86 | handling the event of a changed namespace and the generic events that it sends takes it a namespace step |
| `Handlers.ServiceEvent` | internal/eventhandlers/service.go:54-101 | handling the event of a changed service that is not overlooked and the generic events that it sends takes it a service step |
| `Handlers.PolicyEventSteps` | internal/eventhandlers/policy.go:57-119 | handling a policy event that is not skipped takes it a policy step: tracker, queue and store |
| `Handlers.PolicyEvent` | internal/eventhandlers/policy.go:57-119 | handling it with the policy event handler takes the step, the queue growing by what the handler requests |
| `Handlers.SkippedEventIsStutter` | internal/eventhandlers/policy.go:66-85 | a skipped update changes no policy |
| `Handlers.TrackedSystemSound` | pkg/resolvers/policy_tracker.go:46-225 | after any possible sequence of policy events the tracker's sets are what the invariant of runs demands of them |
| `References.GetReferredPoliciesForNamespace` | pkg/resolvers/policies_for_namespace.go:15-36 | returns exactly the tracked policies with a namespace selector that matches either version |
| `References.GetReferredPoliciesForService` | pkg/resolvers/policies_for_service.go:19-50 | returns exactly the potential matches that refer to either version, nothing for a headless service |
| `References.GetPotentialPolicyMatches` | pkg/resolvers/policies_for_service.go:86-94 | policies with egress rules in the service's namespace or with a namespace selector |
| `IndexExactness.ReferredForPodExact` | pkg/resolvers/policies_for_pod.go:18-104 | with an exact tracker a changed pod refers exactly the policies that apply to one of its versions or have an ingress or egress peer that selects one |
| `IndexExactness.PodMatchExact` | pkg/resolvers/policies_for_pod.go:109-144 | a pod matches a peer in the index exactly when the resolver would select it for that peer |
| `IndexExactness.ServiceMatchExact` | pkg/resolvers/policies_for_service.go:113-148 | the same for services that have a selector and a ClusterIP |
| `IndexExactness.ReferredForNamespaceExact` | pkg/resolvers/policies_for_namespace.go:15-70 | with an exact tracker a changed namespace refers exactly the policies with a namespace selector in an ingress or egress peer that matches the labels of one of its versions |
| `IndexExactness.ReferredForServiceExact` | pkg/resolvers/policies_for_service.go:19-148 | with an exact tracker a changed service refers exactly the policies with an egress peer that selects the namespace and the selector labels of one of its versions, provided it has a ClusterIP afterwards |
| `IndexExactness.PotentialExact` | pkg/resolvers/policies_for_service.go:86-94 | with an exact tracker the potential matches of a service are the policies with egress rules that are in its namespace or have a namespace selector in some peer |
| `Dependencies.PodChangeComplete` | pkg/resolvers/policies_for_pod.go:18-144 | a policy that a created, updated or deleted pod does not refer to has the same resolutions before and after |
| `NamespaceDependencies.NamespaceChangeComplete` | pkg/resolvers/policies_for_namespace.go:15-70 | the same for namespaces |
| `ServiceDependencies.ServiceChangeComplete` | pkg/resolvers/policies_for_service.go:19-148 | the same for services, for all changes that are not overlooked |
| `OverlookedServices.ServiceMissedExactly` | pkg/resolvers/policies_for_service.go:19-148 | a created, updated or deleted service is missed by some policy in some cluster exactly when its versions are those that `Overlooked` describes |
| `Labels.PositiveMonotone` | pkg/resolvers/endpoints.go:514-522 | a selector of equality, `In` and `Exists` keeps matching when labels are added, so that one that matches a service's selector matches every pod behind it |
| `MissedChanges.EmptyPeerMissesPod` | pkg/resolvers/policies_for_pod.go:130-143 | a peer without selectors and IP block resolves to pods that do not refer the policy |
| `MissedChanges.SelectorMissesExactly` | pkg/resolvers/endpoints.go:503-522 | an egress pod selector makes some policy miss some pod if and only if adding labels can make it stop matching: it sees a service but not the pod that decides the ports of it |
| `MissedChanges.NegativeSelectorMissesPod` | pkg/resolvers/endpoints.go:503-522 | for example the selector that demands the absence of a label, for every label |
| `OverlookedServices.HeadlessMissesService` | pkg/resolvers/policies_for_service.go:19-24 | every service that becomes headless is missed by some policy |
| `OverlookedServices.NilSelectorMissesService` | pkg/resolvers/policies_for_service.go:135-138 | every created or deleted service with a ClusterIP and no selector is missed by some policy |
| `OverlookedServices.SelectorAppearsMissesService` | pkg/resolvers/policies_for_service.go:113-148 | so is every service that gains or loses a selector with labels while the version without it is published |
| `OverlookedServices.WithoutSelectorMissesService` | pkg/resolvers/policies_for_service.go:113-148 | so is every service without selector that gets a ClusterIP, another one, or other listen ports |
| `AddresslessPods.DroppedExactly` | internal/eventhandlers/pod.go:91-95 | a created, updated or deleted pod whose event is dropped for want of an address is missed by some policy in some cluster if and only if it slips: it names a container port and is created, deleted or relabelled, or it was ready |
| `AddresslessPods.DroppedPodFrame` | pkg/resolvers/endpoints.go:503-563 | a dropped change that does not slip leaves every policy with the same resolutions, whatever services stand in front of the pod |
| `AddresslessPods.SilentPodFrame` | internal/eventhandlers/pod.go:91-95 | dropping the event of a pod that is never ready and backs no service is harmless for every policy, whatever ports it names |
| `AddresslessPods.AddresslessBackingPodIsMissed` | internal/eventhandlers/pod.go:91-95 | every created pod without an address that names a container port is missed by some policy that the index would have referred |
| `Tracker.TrackerExact` | pkg/resolvers/policy_tracker.go:46-225 | after every sequence of events each set is exactly the live policies whose latest spec has a namespace selector, respectively an egress rule |
| `Tracker.NetworkPoliciesTracked` | pkg/resolvers/policy_tracker.go:114-179 | after every sequence of events the sets hold the names of exactly the live NetworkPolicies with a namespace selector in some ingress or egress peer, and of exactly those with an egress rule |
| `Tracker.ApplicationPoliciesTracked` | pkg/resolvers/policy_tracker.go:69-112 | the same for ApplicationNetworkPolicies |
| `Tracker.ClusterPoliciesTracked` | pkg/resolvers/policy_tracker.go:201-225 | every live ClusterNetworkPolicy is in the first set, and exactly those with an egress rule in the second |
| `Tracker.EventRecorded` | internal/eventhandlers/policy.go:57-119 | whatever the sets were: a created, updated or generic policy of any kind is recorded by its peers and rules, a deleted one forgotten, a skipped update changes nothing, and other names keep their places |
| `Tracker.SkippableExactly` | internal/eventhandlers/policy.go:66-85 | an update is skipped exactly when the version is new and neither the deletion nor the spec changed, absent and empty peer lists aside |
| `Tracker.ShortCutSafe` | internal/eventhandlers/policy.go:66-85 | specs that the update short cut treats as unchanged agree on both properties |
| `Tracker.ExactTrackerServesIndex` | pkg/resolvers/policy_tracker.go:139-157 | an exact tracker is what the dependency index relies on |
| `Tracker.PolicyEventHandler.Handle` | internal/eventhandlers/policy.go:57-119 | a created policy and an update that is not skipped add one request for the policy at once, a generic event one after the batch period, a deletion and a skipped update none; the tracker changes as the kind demands |
| `Tracker.PolicyTracker.UpdatePolicy` | pkg/resolvers/policy_tracker.go:114-130 | the policy is in each of the two sets exactly when it has the property, other entries stay |
| `Tracker.PolicyTracker.RemovePolicy` | pkg/resolvers/policy_tracker.go:132-137 | the policy is in neither set, other entries stay |
| `Tracker.PolicyTracker.UpdateANP` | pkg/resolvers/policy_tracker.go:69-84 | the same for application network policies |
| `Tracker.PolicyTracker.UpdateCNP` | pkg/resolvers/policy_tracker.go:201-214 | cluster network policies always count as referring to namespaces |
| `Tracker.PolicyTracker.UpdateGenericPolicy` | pkg/resolvers/policy_tracker.go:46-55 | dispatches on the kind and touches the sets of that kind only |
| `Tracker.PolicyTracker.RemoveGenericPolicy` | pkg/resolvers/policy_tracker.go:58-67 | dispatches on the kind and touches the sets of that kind only |

## Left out

- TargetPortAgreement: covers numeric policy ports without a range, unique service ports and non-empty target-port names; named policy ports are not put through the bypass check by the source.
- ClusterRoundExact: the condition is on the survivors of the plan; which of them hold which rules depends on the existing objects and on map order.
- QuietExactly: needs that no two desired rules of a direction would be merged; a merged rule has a key of its own, is purged and packed again in every round, and when that settles is stated for one object only (`SingleObjectQuiet`).
- PodChangeComplete: the peers of the policy have a selector or an IP block, and its egress pod selectors do not stop matching when labels are added.
- EgressDescribed: the condition for completeness is exact for each rule and service (`RuleListensExactly`); a listen port that one rule misses may be published by another one.
- DroppedExactly: the containers of a pod do not change after its creation.
- Slices are values: aliasing between slices, capacity growth and shared backing arrays of the lists that the source appends to in place are not captured; the methods rebuild sequences.
- Errors of API reads, selector conversion errors and the partial results they lead to; a reconciliation fails only at a write.
- The hash function: collisions of SHA-256 are excluded by modelling the framed text itself.
- A chunk size that is not positive, where the cluster variant packs nothing.
- The resolver of ApplicationNetworkPolicies and the resolver of ClusterNetworkPolicies with its deduplication, which are mostly conversions; the tracker covers all three kinds, the dependency index NetworkPolicies.
- The end of a port range on a ClusterIP entry, which is copied next to a translated start port.
- The order of cluster rules, which map iteration does not preserve, so all claims are per action.
- The pod selector of surviving objects, which the source does not refresh.
- Clean-up of deleted policies, which relies on labels, owner references and garbage collection; in `Controller` a deleted policy only leaves the cluster and the tracker.
- Generic events that race with watch events, stale informer reads, work-queue timing and rate limits; in `Controller` each step sees the present cluster, and an update that the policy handler skips is no step (`SkippedEventIsStutter`).
- Events of the initial list of pods, namespaces and services, which the handlers skip because every policy gets an event of its own; runs start without policies.
- The short cuts of the pod, namespace and service event handlers for updates in which nothing they compare has changed; the pod handler does not compare host addresses and container ports, which Kubernetes fixes before a pod gets its address.
- Listing in an empty namespace, which the client reads as all namespaces; namespaces always have names.
- Listing order: pods, services and namespaces are listed in one fixed order per cluster; a change keeps the order of the others.
- Metrics, annotations with timestamps, finalizers, flags, configuration watching, logging and generated code.
