/** Reconciling one NetworkPolicy against the API server: the store of its PolicyEndpoints, the
    writes of one round, and the method that performs them and may stop at any write. */
module Store {
  import opened Basics
  import opened PolicyInfo
  import opened Labels
  import opened RuleKeys
  import opened Combine
  import opened Reconciler
  import opened Placement
  import opened Equality

  /** The PolicyEndpoints of one policy, by name. */
  type Objects = map<string, PolicyEndpoint>

  ghost predicate ValidStore(s: Objects) {
    forall n | n in s :: n != "" && s[n].name == n && ValidSpec(s[n])
  }

  datatype Policy = Policy(name: string, namespace: string, podSelector: LabelSelector, policyTypes: seq<string>)

  function Refresh(policyTypes: seq<string>): PolicyHeader -> PolicyHeader {
    (h: PolicyHeader) => h.(podIsolation := policyTypes)
  }

  function ConfigOf(p: Policy, chunk: nat): Config<PolicyHeader, EndpointInfo> {
    Config(chunk, EndpointInfoKey, Refresh(p.policyTypes),
      PolicyHeader(Some(p.podSelector), PolicyReference(p.name, p.namespace), p.policyTypes))
  }

  function DesiredBy(r: Resolved): Desired<EndpointInfo> {
    DesiredOf(EndpointInfoKey, r.ingress, r.egress, r.pods)
  }

  // ---------------------------------------------------------------- merging the rules of each object

  ghost predicate MergedObject(o: PolicyEndpoint, m: PolicyEndpoint) {
    && m.name == o.name && m.header == o.header && m.pods == o.pods
    && CombinedFrom(o.ingress, m.ingress) && CombinedFrom(o.egress, m.egress)
  }

  ghost predicate Merged(os: seq<PolicyEndpoint>, ms: seq<PolicyEndpoint>) {
    |os| == |ms| && forall i :: 0 <= i < |os| ==> MergedObject(os[i], ms[i])
  }

  method ProcessPolicyEndpoints(pes: seq<PolicyEndpoint>) returns (merged: seq<PolicyEndpoint>)
    ensures Merged(pes, merged)
  {
    hide CombinedFrom;
    merged := [];
    for i := 0 to |pes|
      invariant |merged| == i
      invariant forall j :: 0 <= j < i ==> MergedObject(pes[j], merged[j])
    {
      var ingress := CombineRulesEndpoints(pes[i].ingress);
      var egress := CombineRulesEndpoints(pes[i].egress);
      merged := merged + [pes[i].(ingress := ingress, egress := egress)];
    }
  }

  ghost predicate MergedPlan(p: Plan<PolicyHeader, EndpointInfo>, m: Plan<PolicyHeader, EndpointInfo>) {
    Merged(p.create, m.create) && Merged(p.update, m.update) && m.delete == p.delete
  }

  method ComputePolicyEndpoints(policy: Policy, chunk: nat, existing: seq<PolicyEndpoint>, resolved: Resolved)
    returns (create: seq<PolicyEndpoint>, update: seq<PolicyEndpoint>, delete: seq<PolicyEndpoint>, ghost order: Order)
    requires chunk > 0 && ProperNames(Names(existing))
    ensures |create| + |update| >= 1 && forall o | o in delete :: IsBare(o)
    ensures ValidOrder(ConfigOf(policy, chunk), existing, DesiredBy(resolved), order)
    ensures MergedPlan(PlanFor(ConfigOf(policy, chunk), existing, DesiredBy(resolved), order), Plan(create, update, delete))
  {
    hide PlanFor, ValidOrder, ProperNames, Names, MergedObject, IsBare;
    var creates, updates;
    creates, updates, delete, order :=
      ComputeEndpoints(ConfigOf(policy, chunk), existing, resolved.ingress, resolved.egress, resolved.pods);
    create := ProcessPolicyEndpoints(creates);
    update := ProcessPolicyEndpoints(updates);
  }

  // ---------------------------------------------------------------- one round of writes

  datatype Write = Put(name: string, endpoint: PolicyEndpoint) | Delete(name: string)

  function Apply(s: Objects, w: Write): Objects {
    match w
    case Put(n, o) => s[n := o]
    case Delete(n) => s - {n}
  }

  function ApplyAll(s: Objects, ws: seq<Write>): Objects {
    if ws == [] then s else Apply(ApplyAll(s, ws[..|ws| - 1]), ws[|ws| - 1])
  }

  /** The choices behind one round: the order in which the API lists the objects and the maps
      are visited, the merged plan, and the names the API server gives to new objects. */
  datatype Round = Round(
    policy: Policy, chunk: nat, resolved: Resolved,
    listing: seq<string>, order: Order, plan: Plan<PolicyHeader, EndpointInfo>, names: seq<string>)

  function ObjectsListed(s: Objects, listing: seq<string>): (r: seq<PolicyEndpoint>)
    requires forall n | n in listing :: n in s
    ensures |r| == |listing|
    ensures forall i :: 0 <= i < |r| ==> r[i] == s[listing[i]]
  {
    seq(|listing|, i requires 0 <= i < |listing| => s[listing[i]])
  }

  ghost predicate FreshNames(s: Objects, names: seq<string>) {
    && (forall i :: 0 <= i < |names| ==> names[i] != "" && names[i] !in s)
    && (forall i, j :: 0 <= i < j < |names| ==> names[i] != names[j])
  }

  ghost predicate RoundValid(s: Objects, r: Round) {
    && r.chunk > 0 && ValidResolved(r.resolved)
    && Lists(r.listing, s.Keys) && (forall n | n in r.listing :: n in s)
    && ValidOrder(ConfigOf(r.policy, r.chunk), ObjectsListed(s, r.listing), DesiredBy(r.resolved), r.order)
    && MergedPlan(PlanFor(ConfigOf(r.policy, r.chunk), ObjectsListed(s, r.listing), DesiredBy(r.resolved), r.order), r.plan)
    && |r.names| == |r.plan.create| && FreshNames(s, r.names)
  }

  function CreateWrites(create: seq<PolicyEndpoint>, names: seq<string>): seq<Write>
    requires |names| == |create|
  {
    if create == [] then [] else
      var i := |create| - 1;
      CreateWrites(create[..i], names[..i]) + [Put(names[i], create[i].(name := names[i]))]
  }

  /** An update is skipped when the stored spec is semantically equal. */
  ghost function UpdateWrite(s: Objects, u: PolicyEndpoint): seq<Write> {
    if u.name in s && SpecEqual(s[u.name], u) then [] else [Put(u.name, u)]
  }

  ghost function UpdateWrites(s: Objects, update: seq<PolicyEndpoint>): seq<Write> {
    if update == [] then [] else
      UpdateWrites(s, update[..|update| - 1]) + UpdateWrite(s, update[|update| - 1])
  }

  function DeleteWrites(delete: seq<PolicyEndpoint>): seq<Write> {
    if delete == [] then [] else
      DeleteWrites(delete[..|delete| - 1]) + [Delete(delete[|delete| - 1].name)]
  }

  /** All writes of a round: creates, then updates, then deletes. */
  ghost function Writes(s: Objects, r: Round): seq<Write>
    requires |r.names| == |r.plan.create|
  {
    CreateWrites(r.plan.create, r.names) + UpdateWrites(s, r.plan.update) + DeleteWrites(r.plan.delete)
  }

  // ---------------------------------------------------------------- names in the store

  lemma ListedNames(s: Objects, listing: seq<string>)
    requires ValidStore(s) && Lists(listing, s.Keys)
    ensures forall n | n in listing :: n in s
    ensures Names(ObjectsListed(s, listing)) == multiset(s.Keys)
    ensures ProperNames(Names(ObjectsListed(s, listing)))
  {
    ListsMembers(listing, s.Keys);
    assert Map(NameColumn(), ObjectsListed(s, listing)) == listing;
  }

  lemma {:induction false} ApplyAllConcat(s: Objects, a: seq<Write>, b: seq<Write>)
    ensures ApplyAll(s, a + b) == ApplyAll(ApplyAll(s, a), b)
  {
    if b == [] {
      assert a + b == a;
    } else {
      ApplyAllConcat(s, a, b[..|b| - 1]);
      assert (a + b)[..|a + b| - 1] == a + b[..|b| - 1];
    }
  }

  ghost predicate HasName(objs: seq<PolicyEndpoint>, n: string) {
    exists i :: 0 <= i < |objs| && objs[i].name == n
  }

  /** Updates and deletes of a round name different stored objects. */
  ghost predicate NamesApart(s: Objects, update: seq<PolicyEndpoint>, delete: seq<PolicyEndpoint>) {
    && (forall i :: 0 <= i < |update| ==> update[i].name in s)
    && (forall i :: 0 <= i < |delete| ==> delete[i].name in s)
    && (forall i, j :: 0 <= i < j < |update| ==> update[i].name != update[j].name)
    && (forall i, j :: 0 <= i < |update| && 0 <= j < |delete| ==> update[i].name != delete[j].name)
    && (forall n | n in s :: HasName(update, n) || HasName(delete, n))
  }

  lemma NamedOnce(s: Objects, all: seq<PolicyEndpoint>)
    requires Names(all) == multiset(s.Keys)
    ensures forall i :: 0 <= i < |all| ==> all[i].name in s
    ensures forall i, j :: 0 <= i < j < |all| ==> all[i].name != all[j].name
    ensures forall n | n in s :: HasName(all, n)
  {
    var name := NameColumn<PolicyHeader, EndpointInfo>();
    forall i | 0 <= i < |all| ensures all[i].name in s {
      BagMembers(name, all, all[i].name);
      assert all[i] in all;
    }
    forall i, j | 0 <= i < j < |all| ensures all[i].name != all[j].name {
      if all[i].name == all[j].name {
        BagPosition(name, all, i, j);
      }
    }
    forall n | n in s ensures HasName(all, n) {
      BagMembers(name, all, n);
      var o :| o in all && name(o) == n;
    }
  }

  lemma NamesApartFrom(s: Objects, update: seq<PolicyEndpoint>, delete: seq<PolicyEndpoint>)
    requires Names(update) + Names(delete) == multiset(s.Keys)
    ensures NamesApart(s, update, delete)
  {
    var all := update + delete;
    BagConcat(NameColumn<PolicyHeader, EndpointInfo>(), update, delete);
    NamedOnce(s, all);
    hide Names;
    assert forall i :: 0 <= i < |update| ==> update[i] == all[i];
    assert forall i :: 0 <= i < |delete| ==> delete[i] == all[|update| + i];
    forall n | n in s ensures HasName(update, n) || HasName(delete, n) {
      var k :| 0 <= k < |all| && all[k].name == n;
      assert k < |update| ==> update[k].name == n;
      assert k >= |update| ==> delete[k - |update|].name == n;
    }
  }

  lemma MergedNames(os: seq<PolicyEndpoint>, ms: seq<PolicyEndpoint>)
    requires Merged(os, ms)
    ensures Names(os) == Names(ms)
  {
    hide CombinedFrom;
    assert Map(NameColumn(), os) == Map(NameColumn(), ms);
  }

  lemma RoundNames(s: Objects, r: Round)
    requires ValidStore(s) && RoundValid(s, r)
    ensures NamesApart(s, r.plan.update, r.plan.delete)
  {
    var cfg, existing, d := ConfigOf(r.policy, r.chunk), ObjectsListed(s, r.listing), DesiredBy(r.resolved);
    hide PlanFor, ValidOrder, Names, NamesApart, Merged;
    ListedNames(s, r.listing);
    PlanNames(cfg, existing, d, r.order);
    MergedNames(PlanFor(cfg, existing, d, r.order).update, r.plan.update);
    NamesApartFrom(s, r.plan.update, r.plan.delete);
  }

  // ---------------------------------------------------------------- prefixes of the writes

  lemma {:induction false} CreateWritesPrefix(create: seq<PolicyEndpoint>, names: seq<string>, i: nat)
    requires |names| == |create| && i <= |create|
    ensures CreateWrites(create[..i], names[..i]) <= CreateWrites(create, names)
    ensures i < |create| ==>
      CreateWrites(create[..i + 1], names[..i + 1]) ==
      CreateWrites(create[..i], names[..i]) + [Put(names[i], create[i].(name := names[i]))]
    decreases |create| - i
  {
    if i == |create| {
      assert create[..i] == create && names[..i] == names;
    } else {
      CreateWritesPrefix(create, names, i + 1);
      assert create[..i + 1][..i] == create[..i] && names[..i + 1][..i] == names[..i];
    }
  }

  lemma {:induction false} UpdateWritesPrefix(s: Objects, update: seq<PolicyEndpoint>, i: nat)
    requires i <= |update|
    ensures UpdateWrites(s, update[..i]) <= UpdateWrites(s, update)
    ensures i < |update| ==>
      UpdateWrites(s, update[..i + 1]) ==
      UpdateWrites(s, update[..i]) + UpdateWrite(s, update[i])
    decreases |update| - i
  {
    hide SpecEqual;
    if i == |update| {
      assert update[..i] == update;
    } else {
      UpdateWritesPrefix(s, update, i + 1);
      assert update[..i + 1][..i] == update[..i];
    }
  }

  lemma {:induction false} DeleteWritesPrefix(delete: seq<PolicyEndpoint>, i: nat)
    requires i <= |delete|
    ensures DeleteWrites(delete[..i]) <= DeleteWrites(delete)
    ensures i < |delete| ==> DeleteWrites(delete[..i + 1]) == DeleteWrites(delete[..i]) + [Delete(delete[i].name)]
    decreases |delete| - i
  {
    if i == |delete| {
      assert delete[..i] == delete;
    } else {
      DeleteWritesPrefix(delete, i + 1);
      assert delete[..i + 1][..i] == delete[..i];
    }
  }

  lemma ApplySnoc(s: Objects, ws: seq<Write>, w: Write)
    ensures w.Put? ==> ApplyAll(s, ws + [w]) == ApplyAll(s, ws)[w.name := w.endpoint]
    ensures w.Delete? ==> ApplyAll(s, ws + [w]) == ApplyAll(s, ws) - {w.name}
  {
    assert (ws + [w])[..|ws|] == ws;
  }

  /** The API server's name generator: always a new non-empty name. */
  ghost predicate Generates(generate: set<string> -> string) {
    forall taken: set<string> :: generate(taken) != "" && generate(taken) !in taken
  }

  method GenerateNames(generate: set<string> -> string, s: Objects, count: nat) returns (names: seq<string>)
    requires Generates(generate)
    ensures |names| == count && FreshNames(s, names)
  {
    names := [];
    var taken := s.Keys;
    for i := 0 to count
      invariant |names| == i && FreshNames(s, names)
      invariant forall n :: n in taken <==> n in s || n in names
    {
      var n := generate(taken);
      names, taken := names + [n], taken + {n};
    }
  }

  class Manager {
    /** The API server's PolicyEndpoints of the policy being reconciled. */
    var objects: Objects
    const endpointChunkSize: nat

    constructor (chunk: nat)
      ensures objects == map[] && endpointChunkSize == chunk
    {
      objects, endpointChunkSize := map[], chunk;
    }

    /** Creates the new objects; stops when the API server has accepted `budget` writes. */
    method CreateAll(create: seq<PolicyEndpoint>, names: seq<string>, budget: nat)
      returns (ok: bool, used: nat, ghost done: seq<Write>)
      requires |names| == |create|
      modifies this`objects
      ensures objects == ApplyAll(old(objects), done) && used == |done| <= budget
      ensures done <= CreateWrites(create, names)
      ensures if ok then done == CreateWrites(create, names) else used == budget
    {
      hide *;
      ghost var store := objects;
      used, done := 0, [];
      WritesStart(store, create, names, [], []);
      for i := 0 to |create|
        invariant used == |done| <= budget
        invariant done == CreateWrites(create[..i], names[..i])
        invariant objects == ApplyAll(store, done)
      {
        CreateWritesPrefix(create, names, i);
        if used == budget {
          return false, used, done;
        }
        var endpoint := create[i].(name := names[i]);
        ApplySnoc(store, done, Put(names[i], endpoint));
        objects := objects[names[i] := endpoint];
        used, done := used + 1, done + [Put(names[i], endpoint)];
      }
      assert create[..|create|] == create && names[..|names|] == names;
      return true, used, done;
    }

    /** Patches the objects whose stored spec differs. */
    method UpdateAll(update: seq<PolicyEndpoint>, budget: nat, ghost store: Objects, ghost delete: seq<PolicyEndpoint>)
      returns (ok: bool, used: nat, ghost done: seq<Write>)
      requires NamesApart(store, update, delete)
      requires forall j :: 0 <= j < |update| ==> SameAt(objects, store, update[j].name)
      modifies this`objects
      ensures objects == ApplyAll(old(objects), done) && used == |done| <= budget
      ensures done <= UpdateWrites(store, update)
      ensures if ok then done == UpdateWrites(store, update) else used == budget
    {
      hide *;
      ghost var start := objects;
      used, done := 0, [];
      WritesStart(start, [], [], update, []);
      WritesStart(store, [], [], update, []);
      for i := 0 to |update|
        invariant used == |done| <= budget
        invariant done == UpdateWrites(store, update[..i])
        invariant objects == ApplyAll(start, done)
        invariant forall j :: i <= j < |update| ==> SameAt(objects, store, update[j].name)
      {
        var u := update[i];
        UpdateWritesPrefix(store, update, i);
        UpdateWriteDef(objects, store, u);
        var same := EqualPolicyEndpointSpec(objects[u.name], u);
        if !same {
          if used == budget {
            return false, used, done;
          }
          ApplySnoc(start, done, Put(u.name, u));
          OthersUntouched(store, update, delete, objects, i);
          objects := objects[u.name := u];
          used, done := used + 1, done + [Put(u.name, u)];
        }
      }
      assert update[..|update|] == update;
      return true, used, done;
    }

    method DeleteAll(delete: seq<PolicyEndpoint>, budget: nat) returns (ok: bool, used: nat, ghost done: seq<Write>)
      modifies this`objects
      ensures objects == ApplyAll(old(objects), done) && used == |done| <= budget
      ensures done <= DeleteWrites(delete)
      ensures if ok then done == DeleteWrites(delete) else used == budget
    {
      hide *;
      ghost var store := objects;
      used, done := 0, [];
      WritesStart(store, [], [], [], delete);
      for i := 0 to |delete|
        invariant used == |done| <= budget
        invariant done == DeleteWrites(delete[..i])
        invariant objects == ApplyAll(store, done)
      {
        DeleteWritesPrefix(delete, i);
        if used == budget {
          return false, used, done;
        }
        ApplySnoc(store, done, Delete(delete[i].name));
        objects := objects - {delete[i].name};
        used, done := used + 1, done + [Delete(delete[i].name)];
      }
      assert delete[..|delete|] == delete;
      return true, used, done;
    }

    /** Reconcile. The API server accepts `budget` writes and then fails; `done` are the writes
        that took effect, a prefix of the writes of the round. */
    method Reconcile(policy: Policy, resolved: Resolved, generate: set<string> -> string, budget: nat)
      returns (ok: bool, ghost round: Round, ghost done: seq<Write>)
      requires endpointChunkSize > 0 && ValidStore(objects) && ValidResolved(resolved) && Generates(generate)
      modifies this`objects
      ensures round.policy == policy && round.chunk == endpointChunkSize && round.resolved == resolved
      ensures RoundValid(old(objects), round)
      ensures done <= Writes(old(objects), round)
      ensures objects == ApplyAll(old(objects), done)
      ensures if ok then done == Writes(old(objects), round) else |done| == budget
    {
      hide *;
      ghost var store := objects;
      var listing := Enumerate(objects.Keys);
      ListedNames(objects, listing);
      var existing := ObjectsListed(objects, listing);
      var create, update, delete, order := ComputePolicyEndpoints(policy, endpointChunkSize, existing, resolved);
      var names := GenerateNames(generate, objects, |create|);
      round := Round(policy, endpointChunkSize, resolved, listing, order, Plan(create, update, delete), names);
      RoundValidDef(store, round);
      RoundNames(store, round);
      WritesDef(store, round);
      UpdatesStored(store, update, delete);
      UntouchedAfterCreates(store, create, names, update);

      var used, more;
      ghost var writes;
      ok, used, done := CreateAll(create, names, budget);
      if !ok {
        return;
      }
      ok, more, writes := UpdateAll(update, budget - used, store, delete);
      ApplyAllConcat(store, done, writes);
      used, done := used + more, done + writes;
      if !ok {
        return;
      }
      ok, more, writes := DeleteAll(delete, budget - used);
      ApplyAllConcat(store, done, writes);
      done := done + writes;
    }
  }

  ghost predicate SameAt(a: Objects, b: Objects, n: string) {
    n in a && n in b && a[n] == b[n]
  }

  lemma UpdateWriteDef(now: Objects, s: Objects, u: PolicyEndpoint)
    requires SameAt(now, s, u.name)
    ensures u.name in now
    ensures UpdateWrite(s, u) == if SpecEqual(now[u.name], u) then [] else [Put(u.name, u)]
  {
  }

  lemma RoundValidDef(s: Objects, r: Round)
    requires r.chunk > 0 && ValidResolved(r.resolved)
    requires Lists(r.listing, s.Keys) && (forall n | n in r.listing :: n in s)
    requires ValidOrder(ConfigOf(r.policy, r.chunk), ObjectsListed(s, r.listing), DesiredBy(r.resolved), r.order)
    requires MergedPlan(PlanFor(ConfigOf(r.policy, r.chunk), ObjectsListed(s, r.listing), DesiredBy(r.resolved), r.order), r.plan)
    requires |r.names| == |r.plan.create| && FreshNames(s, r.names)
    ensures RoundValid(s, r)
  {
  }

  lemma WritesDef(s: Objects, r: Round)
    requires |r.names| == |r.plan.create|
    ensures Writes(s, r) ==
            CreateWrites(r.plan.create, r.names) + UpdateWrites(s, r.plan.update) + DeleteWrites(r.plan.delete)
  {
  }

  lemma WritesStart(s: Objects, create: seq<PolicyEndpoint>, names: seq<string>, update: seq<PolicyEndpoint>, delete: seq<PolicyEndpoint>)
    requires |names| == |create|
    ensures CreateWrites(create[..0], names[..0]) == [] && UpdateWrites(s, update[..0]) == [] && DeleteWrites(delete[..0]) == []
    ensures ApplyAll(s, []) == s
  {
  }

  lemma UpdatesStored(s: Objects, update: seq<PolicyEndpoint>, delete: seq<PolicyEndpoint>)
    requires NamesApart(s, update, delete)
    ensures forall i :: 0 <= i < |update| ==> update[i].name in s
  {
  }

  /** Creating objects under new names leaves the stored ones alone. */
  lemma {:induction false} UntouchedAfterCreates(
    s: Objects, create: seq<PolicyEndpoint>, names: seq<string>, update: seq<PolicyEndpoint>)
    requires |names| == |create| && FreshNames(s, names)
    requires forall i :: 0 <= i < |update| ==> update[i].name in s
    ensures forall j :: 0 <= j < |update| ==> SameAt(ApplyAll(s, CreateWrites(create, names)), s, update[j].name)
  {
    if create != [] {
      var i := |create| - 1;
      UntouchedAfterCreates(s, create[..i], names[..i], update);
      ApplySnoc(s, CreateWrites(create[..i], names[..i]), Put(names[i], create[i].(name := names[i])));
    }
  }

  lemma OthersUntouched(s: Objects, update: seq<PolicyEndpoint>, delete: seq<PolicyEndpoint>, now: Objects, i: nat)
    requires NamesApart(s, update, delete) && i < |update|
    requires forall j :: i <= j < |update| ==> SameAt(now, s, update[j].name)
    ensures forall j :: i + 1 <= j < |update| ==> SameAt(now[update[i].name := update[i]], s, update[j].name)
  {
  }
}
