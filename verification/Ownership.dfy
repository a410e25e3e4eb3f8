/** The headers of the published objects: whose they are, which pods they select and what they
    isolate, at every prefix of every round. */
module Ownership {
  import opened Basics
  import opened PolicyInfo
  import opened Purge
  import opened Reconciler
  import opened Placement
  import opened Equality
  import opened Store
  import opened WriteEffects
  import opened Convergence
  import opened RoundResult

  /** The object refers to the policy of this name and namespace. */
  predicate RefersTo(o: PolicyEndpoint, name: string, namespace: string) {
    o.header.policyRef.name == name && o.header.policyRef.namespace == namespace
  }

  /** All objects refer to that policy, so that the next listing by its name and namespace finds
      them. */
  predicate AllReferTo(s: Objects, name: string, namespace: string) {
    forall n | n in s :: RefersTo(s[n], name, namespace)
  }

  lemma MergedHeader(o: PolicyEndpoint, m: PolicyEndpoint)
    requires MergedObject(o, m)
    ensures m.header == o.header && m.name == o.name
  {
  }

  /** A created object refers to the policy, selects what the policy selects and isolates what it
      isolates. */
  lemma CreatedHeader(s: Objects, r: Round, m: PolicyEndpoint)
    requires ValidStore(s) && RoundValid(s, r) && m in r.plan.create
    ensures RefersTo(m, r.policy.name, r.policy.namespace)
    ensures m.header.podSelector == Some(r.policy.podSelector) && m.header.podIsolation == r.policy.policyTypes
  {
    var cfg, existing, d := ConfigOf(r.policy, r.chunk), ObjectsListed(s, r.listing), DesiredBy(r.resolved);
    PlanSizes(s, r);
    RoundParts(s, r);
    hide PlanFor, ValidOrder, MergedPlan, MergedObject, RoundValid, Kept, Left;
    PlanShape(cfg, existing, d, r.order);
    var i :| 0 <= i < |r.plan.create| && r.plan.create[i] == m;
    MergedHeader(PlanOf(s, r).create[i], m);
  }

  /** An updated object keeps its reference and its pod selector and isolates what the policy now
      isolates. */
  lemma UpdatedHeader(s: Objects, r: Round, m: PolicyEndpoint)
    requires ValidStore(s) && RoundValid(s, r) && m in r.plan.update
    ensures m.name in s && m.header.policyRef == s[m.name].header.policyRef
    ensures m.header.podSelector == s[m.name].header.podSelector && m.header.podIsolation == r.policy.policyTypes
  {
    var cfg, existing, d := ConfigOf(r.policy, r.chunk), ObjectsListed(s, r.listing), DesiredBy(r.resolved);
    PlanSizes(s, r);
    RoundParts(s, r);
    hide PlanFor, ValidOrder, MergedPlan, MergedObject, RoundValid, Kept, Left, ValidSpec;
    var i :| 0 <= i < |r.plan.update| && r.plan.update[i] == m;
    var u := PlanOf(s, r).update[i];
    MergedHeader(u, m);
    var j := UpdateOrigin(cfg, existing, d, r.order, u);
    assert r.listing[j] in r.listing;
  }

  /** References survive: at every prefix of the writes of a round for the policy, all objects refer
      to it if all did before. */
  lemma PrefixKeepsReferences(s: Objects, r: Round, k: nat)
    requires ValidStore(s) && RoundValid(s, r) && k <= |Writes(s, r)|
    requires AllReferTo(s, r.policy.name, r.policy.namespace)
    ensures AllReferTo(ApplyAll(s, Writes(s, r)[..k]), r.policy.name, r.policy.namespace)
  {
    var now := ApplyAll(s, Writes(s, r)[..k]);
    RoundSizes(s, r);
    hide RoundValid, Writes, ApplyAll, ValidStore;
    forall n | n in now ensures RefersTo(now[n], r.policy.name, r.policy.namespace) {
      AtPrefix(s, r, k, n);
      if IsCreated(r, n, now[n]) {
        var m := CreatedIsPlanned(r, n, now[n]);
        CreatedHeader(s, r, m);
      } else if now[n] in r.plan.update && now[n].name == n {
        UpdatedHeader(s, r, now[n]);
      }
    }
  }

  /** The object isolates these types of traffic, in some order. */
  ghost predicate Isolates(o: PolicyEndpoint, types: seq<string>) {
    multiset(o.header.podIsolation) == multiset(types)
  }

  lemma EqualIsolates(a: PolicyEndpoint, b: PolicyEndpoint, types: seq<string>)
    requires SpecEqual(a, b) && Isolates(b, types)
    ensures Isolates(a, types)
  {
    assert Map(Itself<string>(), a.header.podIsolation) == a.header.podIsolation;
    assert Map(Itself<string>(), b.header.podIsolation) == b.header.podIsolation;
    hide EndpointText, PodText;
  }

  /** After a complete round every object isolates what the policy isolates. */
  lemma RoundIsolates(s: Objects, r: Round, n: string)
    requires ValidStore(s) && RoundValid(s, r) && n in StoreAfter(s, r)
    ensures Isolates(StoreAfter(s, r)[n], r.policy.policyTypes)
  {
    RoundSizes(s, r);
    RoundNames(s, r);
    hide RoundValid, Writes, ApplyAll, ValidStore, SpecEqual, NamesApart, FreshNames;
    OnlySurvivors(s, r, n);
    if n in r.names {
      var i: nat :| i < |r.names| && r.names[i] == n;
      CreatedInStore(s, r, i);
      CreatedHeader(s, r, r.plan.create[i]);
    } else {
      var i: nat :| i < |r.plan.update| && r.plan.update[i].name == n;
      UpdatedInStore(s, r, i);
      UpdatedHeader(s, r, r.plan.update[i]);
      if StoreAfter(s, r)[n] != r.plan.update[i] {
        EqualIsolates(s[n], r.plan.update[i], r.policy.policyTypes);
      }
    }
  }

  /** All attempts of the run are for the policy of this name and namespace. */
  ghost predicate RunFor(run: seq<Attempt>, name: string, namespace: string) {
    forall a | a in run :: a.round.policy.name == name && a.round.policy.namespace == namespace
  }

  /** So it is over whole runs of interrupted rounds, from an empty store in particular. */
  lemma {:induction false} RunKeepsReferences(s: Objects, run: seq<Attempt>, name: string, namespace: string)
    requires ValidStore(s) && RunValid(s, run) && RunFor(run, name, namespace) && AllReferTo(s, name, namespace)
    ensures AllReferTo(AfterRun(s, run), name, namespace)
    decreases |run|
  {
    hide ValidStore, RoundValid, AllReferTo;
    if run != [] {
      assert run[0] in run;
      PrefixKeepsReferences(s, run[0].round, run[0].cut);
      PrefixKeepsStoreValid(s, run[0].round, run[0].cut);
      RunKeepsReferences(AfterAttempt(s, run[0]), run[1..], name, namespace);
    }
  }
}
