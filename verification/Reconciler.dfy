/** Computing which objects to create, update and delete (computePolicyEndpoints and
    computeClusterPolicyEndpoints before merging), for any header and rule type. */
module Reconciler {
  import opened Basics
  import opened PolicyInfo
  import opened Packing
  import opened Purge

  // ---------------------------------------------------------------- inputs

  /** `key` identifies a rule, `refresh` brings a header up to date with the policy and
      `header` is the header of a new endpoint. */
  datatype Config<!H, !R> = Config(chunk: nat, key: R -> string, refresh: H -> H, header: H)

  function Blank<H, R>(cfg: Config<H, R>): PolicyObject<H, R> {
    PolicyObject("", cfg.header, [], [], [])
  }

  /** The resolved endpoints of the policy, by key. */
  datatype Desired<R> = Desired(ingress: map<string, R>, egress: map<string, R>, pods: set<PodEndpoint>)

  /** Later entries of the list win, as in the source's map assignment. */
  function ByKey<R>(key: R -> string, list: seq<R>): (m: map<string, R>)
    ensures forall k | k in m :: m[k] in list && key(m[k]) == k
    ensures forall x | x in list :: key(x) in m
  {
    if list == [] then map[] else
      var last := list[|list| - 1];
      ByKey(key, list[..|list| - 1])[key(last) := last]
  }

  function DesiredOf<R>(key: R -> string, ingress: seq<R>, egress: seq<R>, pods: seq<PodEndpoint>): Desired<R> {
    Desired(ByKey(key, ingress), ByKey(key, egress), set p | p in pods)
  }

  function IngressColumn<H, R>(): Column<PolicyObject<H, R>, R> {
    Column((o: PolicyObject<H, R>) => o.ingress, (o: PolicyObject<H, R>, v) => o.(ingress := v))
  }

  function EgressColumn<H, R>(): Column<PolicyObject<H, R>, R> {
    Column((o: PolicyObject<H, R>) => o.egress, (o: PolicyObject<H, R>, v) => o.(egress := v))
  }

  function PodColumn<H, R>(): Column<PolicyObject<H, R>, PodEndpoint> {
    Column((o: PolicyObject<H, R>) => o.pods, (o: PolicyObject<H, R>, v) => o.(pods := v))
  }

  function NameColumn<H, R>(): PolicyObject<H, R> -> string {
    (o: PolicyObject<H, R>) => o.name
  }

  function Ingresses<H, R>(objs: seq<PolicyObject<H, R>>): seq<seq<R>> { Map(IngressColumn<H, R>().get, objs) }

  function Egresses<H, R>(objs: seq<PolicyObject<H, R>>): seq<seq<R>> { Map(EgressColumn<H, R>().get, objs) }

  function PodLists<H, R>(objs: seq<PolicyObject<H, R>>): seq<seq<PodEndpoint>> { Map(PodColumn<H, R>().get, objs) }

  // ---------------------------------------------------------------- purging all objects

  ghost function PurgedObject<H, R>(
    cfg: Config<H, R>, objs: seq<PolicyObject<H, R>>, d: Desired<R>, i: nat): PolicyObject<H, R>
    requires i < |objs|
  {
    var o := objs[i];
    PolicyObject(o.name, cfg.refresh(o.header),
      Kept(cfg.key, o.ingress, Left(cfg.key, Ingresses(objs)[..i], d.ingress.Keys)),
      Kept(cfg.key, o.egress, Left(cfg.key, Egresses(objs)[..i], d.egress.Keys)),
      Kept(Itself<PodEndpoint>(), o.pods, Left(Itself<PodEndpoint>(), PodLists(objs)[..i], d.pods)))
  }

  ghost function PurgeAll<H, R>(
    cfg: Config<H, R>, objs: seq<PolicyObject<H, R>>, d: Desired<R>, n: nat): (r: seq<PolicyObject<H, R>>)
    requires n <= |objs|
    ensures |r| == n
  {
    if n == 0 then [] else PurgeAll(cfg, objs, d, n - 1) + [PurgedObject(cfg, objs, d, n - 1)]
  }

  predicate IsBare<H, R>(o: PolicyObject<H, R>) {
    |o.ingress| == 0 && |o.egress| == 0 && |o.pods| == 0
  }

  /** The objects that still hold something. */
  function Loaded<H, R>(objs: seq<PolicyObject<H, R>>): (r: seq<PolicyObject<H, R>>)
    ensures forall o | o in r :: o in objs && !IsBare(o)
    ensures forall o | o in objs && !IsBare(o) :: o in r
  {
    if objs == [] then [] else
      var last := objs[|objs| - 1];
      Loaded(objs[..|objs| - 1]) + if IsBare(last) then [] else [last]
  }

  /** The objects that hold nothing. */
  function Bare<H, R>(objs: seq<PolicyObject<H, R>>): (r: seq<PolicyObject<H, R>>)
    ensures forall o | o in r :: o in objs && IsBare(o)
    ensures forall o | o in objs && IsBare(o) :: o in r
  {
    if objs == [] then [] else
      var last := objs[|objs| - 1];
      Bare(objs[..|objs| - 1]) + if IsBare(last) then [last] else []
  }

  /** Objects that keep something come before objects that are candidates for deletion. */
  ghost function Slots<H, R>(cfg: Config<H, R>, existing: seq<PolicyObject<H, R>>, d: Desired<R>): seq<PolicyObject<H, R>> {
    var purged := PurgeAll(cfg, existing, d, |existing|);
    Loaded(purged) + Bare(purged)
  }

  // ---------------------------------------------------------------- the orders chosen by map iteration

  datatype Order = Order(ingress: seq<string>, egress: seq<string>, pods: seq<PodEndpoint>)

  ghost predicate ValidOrder<H, R>(
    cfg: Config<H, R>, existing: seq<PolicyObject<H, R>>, d: Desired<R>, order: Order)
  {
    && Lists(order.ingress, Left(cfg.key, Ingresses(existing), d.ingress.Keys))
    && Lists(order.egress, Left(cfg.key, Egresses(existing), d.egress.Keys))
    && Lists(order.pods, Left(Itself<PodEndpoint>(), PodLists(existing), d.pods))
  }

  lemma OrderInMap<H, R>(cfg: Config<H, R>, existing: seq<PolicyObject<H, R>>, d: Desired<R>, order: Order)
    requires ValidOrder(cfg, existing, d, order)
    ensures forall k | k in order.ingress :: k in d.ingress
    ensures forall k | k in order.egress :: k in d.egress
    ensures forall p | p in order.pods :: p in d.pods
  {
    ListsMembers(order.ingress, Left(cfg.key, Ingresses(existing), d.ingress.Keys));
    ListsMembers(order.egress, Left(cfg.key, Egresses(existing), d.egress.Keys));
    ListsMembers(order.pods, Left(Itself<PodEndpoint>(), PodLists(existing), d.pods));
  }

  // ---------------------------------------------------------------- the plan

  datatype Plan<H, R> = Plan(
    create: seq<PolicyObject<H, R>>, update: seq<PolicyObject<H, R>>, delete: seq<PolicyObject<H, R>>)

  ghost function PackAll<H, R>(
    cfg: Config<H, R>, slots: seq<PolicyObject<H, R>>,
    ingress: seq<R>, egress: seq<R>, pods: seq<PodEndpoint>): seq<PolicyObject<H, R>>
    requires cfg.chunk > 0
  {
    var packed1 := PackColumn(IngressColumn(), slots, ingress, cfg.chunk, Blank(cfg));
    var packed2 := PackColumn(EgressColumn(), packed1, egress, cfg.chunk, Blank(cfg));
    PackColumn(PodColumn(), packed2, pods, cfg.chunk, Blank(cfg))
  }

  /** Deletes what holds nothing, but keeps at least one object alive. */
  ghost function Finish<H, R>(
    cfg: Config<H, R>, modified: seq<PolicyObject<H, R>>, candidates: seq<PolicyObject<H, R>>,
    created: seq<PolicyObject<H, R>>): Plan<H, R>
  {
    var update, delete := Loaded(candidates) + modified, Bare(candidates);
    if created == [] && update == [] then
      if delete == [] then Plan([Blank(cfg)], [], []) else Plan([], [delete[0]], delete[1..])
    else Plan(created, update, delete)
  }

  ghost function PlanFor<H, R>(
    cfg: Config<H, R>, existing: seq<PolicyObject<H, R>>, d: Desired<R>, order: Order): Plan<H, R>
    requires cfg.chunk > 0 && ValidOrder(cfg, existing, d, order)
  {
    OrderInMap(cfg, existing, d, order);
    var purged := PurgeAll(cfg, existing, d, |existing|);
    var slots := Loaded(purged) + Bare(purged);
    var packed := PackAll(cfg, slots, Lookup(d.ingress, order.ingress), Lookup(d.egress, order.egress), order.pods);
    PackAllGrows(cfg, slots, Lookup(d.ingress, order.ingress), Lookup(d.egress, order.egress), order.pods);
    Finish(cfg, packed[..|Loaded(purged)|], packed[|Loaded(purged)|..|slots|], packed[|slots|..])
  }

  lemma PackAllGrows<H, R>(
    cfg: Config<H, R>, slots: seq<PolicyObject<H, R>>, ingress: seq<R>, egress: seq<R>, pods: seq<PodEndpoint>)
    requires cfg.chunk > 0
    ensures |PackAll(cfg, slots, ingress, egress, pods)| >= |slots|
  {
  }

  // ---------------------------------------------------------------- the imperative computation

  /** The maps of the desired rules by key. */
  method IndexByKey<R>(key: R -> string, list: seq<R>) returns (m: map<string, R>)
    ensures m == ByKey(key, list)
  {
    m := map[];
    for i := 0 to |list|
      invariant m == ByKey(key, list[..i])
    {
      assert list[..i + 1][..i] == list[..i];
      m := m[key(list[i]) := list[i]];
    }
    assert list[..|list|] == list;
  }

  lemma LoadedBareSnoc<H, R>(objs: seq<PolicyObject<H, R>>, o: PolicyObject<H, R>)
    ensures Loaded(objs + [o]) == Loaded(objs) + if IsBare(o) then [] else [o]
    ensures Bare(objs + [o]) == Bare(objs) + if IsBare(o) then [o] else []
  {
    assert (objs + [o])[..|objs|] == objs;
  }

  lemma PurgedObjectFields<H, R>(cfg: Config<H, R>, objs: seq<PolicyObject<H, R>>, d: Desired<R>, i: nat)
    requires i < |objs|
    ensures PurgedObject(cfg, objs, d, i) == PolicyObject(objs[i].name, cfg.refresh(objs[i].header),
      Kept(cfg.key, objs[i].ingress, Left(cfg.key, Ingresses(objs)[..i], d.ingress.Keys)),
      Kept(cfg.key, objs[i].egress, Left(cfg.key, Egresses(objs)[..i], d.egress.Keys)),
      Kept(Itself<PodEndpoint>(), objs[i].pods, Left(Itself<PodEndpoint>(), PodLists(objs)[..i], d.pods)))
    ensures PurgeAll(cfg, objs, d, i + 1) == PurgeAll(cfg, objs, d, i) + [PurgedObject(cfg, objs, d, i)]
    ensures Ingresses(objs)[i] == objs[i].ingress && Egresses(objs)[i] == objs[i].egress && PodLists(objs)[i] == objs[i].pods
  {
  }

  /** Purges one existing object in place, as the source's loop body does. */
  method PurgeOne<H(==), R>(
    cfg: Config<H, R>, endpoint: PolicyObject<H, R>,
    ingressLeft: set<string>, egressLeft: set<string>, podsLeft: set<PodEndpoint>)
    returns (purged: PolicyObject<H, R>, ingressLeft': set<string>, egressLeft': set<string>, podsLeft': set<PodEndpoint>)
    ensures purged == PolicyObject(endpoint.name, cfg.refresh(endpoint.header),
      Kept(cfg.key, endpoint.ingress, ingressLeft), Kept(cfg.key, endpoint.egress, egressLeft),
      Kept(Itself<PodEndpoint>(), endpoint.pods, podsLeft))
    ensures ingressLeft' == Unheld(cfg.key, endpoint.ingress, ingressLeft)
    ensures egressLeft' == Unheld(cfg.key, endpoint.egress, egressLeft)
    ensures podsLeft' == Unheld(Itself<PodEndpoint>(), endpoint.pods, podsLeft)
  {
    hide Kept, Unheld;
    var ingress, egress, pods;
    ingress, ingressLeft' := PurgeList(cfg.key, endpoint.ingress, ingressLeft);
    egress, egressLeft' := PurgeList(cfg.key, endpoint.egress, egressLeft);
    pods, podsLeft' := PurgeList(Itself<PodEndpoint>(), endpoint.pods, podsLeft);
    purged := endpoint;
    var changed := false;
    if cfg.refresh(endpoint.header) != endpoint.header {
      purged := purged.(header := cfg.refresh(endpoint.header));
      changed := true;
    }
    if |ingress| == 0 && |egress| == 0 && |pods| == 0 {
      purged := purged.(ingress := ingress, egress := egress, pods := pods);
    } else if |endpoint.ingress| != |ingress| || |endpoint.egress| != |egress| || |endpoint.pods| != |pods| || changed {
      purged := purged.(ingress := ingress, egress := egress, pods := pods);
    } else {
      // nothing was dropped: the object is kept as it is
      KeptSameLength(cfg.key, endpoint.ingress, ingressLeft);
      KeptSameLength(cfg.key, endpoint.egress, egressLeft);
      KeptSameLength(Itself<PodEndpoint>(), endpoint.pods, podsLeft);
    }
  }

  lemma LeftNothing<T, K>(key: T -> K, wanted: set<K>)
    ensures Left(key, [], wanted) == wanted
  {
  }

  /** processExistingPolicyEndpoints and processExistingClusterPolicyEndpoints */
  method ProcessExisting<H(==), R>(cfg: Config<H, R>, existing: seq<PolicyObject<H, R>>, d: Desired<R>)
    returns (ingressLeft: set<string>, egressLeft: set<string>, podsLeft: set<PodEndpoint>,
             modified: seq<PolicyObject<H, R>>, potentialDeletes: seq<PolicyObject<H, R>>)
    ensures ingressLeft == Left(cfg.key, Ingresses(existing), d.ingress.Keys)
    ensures egressLeft == Left(cfg.key, Egresses(existing), d.egress.Keys)
    ensures podsLeft == Left(Itself<PodEndpoint>(), PodLists(existing), d.pods)
    ensures modified == Loaded(PurgeAll(cfg, existing, d, |existing|))
    ensures potentialDeletes == Bare(PurgeAll(cfg, existing, d, |existing|))
  {
    hide Left, Unheld, Kept, Ingresses, Egresses, PodLists, Itself, PurgedObject;
    var inCols, egCols, podCols := Ingresses(existing), Egresses(existing), PodLists(existing);
    ingressLeft, egressLeft, podsLeft := d.ingress.Keys, d.egress.Keys, d.pods;
    modified, potentialDeletes := [], [];
    LeftNothing(cfg.key, d.ingress.Keys);
    LeftNothing(cfg.key, d.egress.Keys);
    LeftNothing(Itself<PodEndpoint>(), d.pods);
    ColumnLengths(existing);
    assert inCols[..0] == [] && egCols[..0] == [] && podCols[..0] == [];
    for i := 0 to |existing|
      invariant ingressLeft == Left(cfg.key, inCols[..i], d.ingress.Keys)
      invariant egressLeft == Left(cfg.key, egCols[..i], d.egress.Keys)
      invariant podsLeft == Left(Itself<PodEndpoint>(), podCols[..i], d.pods)
      invariant modified == Loaded(PurgeAll(cfg, existing, d, i))
      invariant potentialDeletes == Bare(PurgeAll(cfg, existing, d, i))
    {
      PurgedObjectFields(cfg, existing, d, i);
      LeftStep(cfg.key, inCols, d.ingress.Keys, i);
      LeftStep(cfg.key, egCols, d.egress.Keys, i);
      LeftStep(Itself<PodEndpoint>(), podCols, d.pods, i);
      var purged;
      purged, ingressLeft, egressLeft, podsLeft := PurgeOne(cfg, existing[i], ingressLeft, egressLeft, podsLeft);
      LoadedBareSnoc(PurgeAll(cfg, existing, d, i), purged);
      if IsBare(purged) {
        potentialDeletes := potentialDeletes + [purged];
      } else {
        modified := modified + [purged];
      }
    }
    assert inCols[..|inCols|] == inCols && egCols[..|egCols|] == egCols && podCols[..|podCols|] == podCols;
  }

  lemma ColumnLengths<H, R>(objs: seq<PolicyObject<H, R>>)
    ensures |Ingresses(objs)| == |Egresses(objs)| == |PodLists(objs)| == |objs|
  {
  }

  // ---------------------------------------------------------------- names

  ghost function Names<H, R>(objs: seq<PolicyObject<H, R>>): multiset<string> {
    Bag(NameColumn<H, R>(), objs)
  }

  /** Existing objects have distinct non-empty names. */
  ghost predicate ProperNames(names: multiset<string>) {
    "" !in names && forall x | x in names :: names[x] == 1
  }

  lemma NameApart<H, R>(objs: seq<PolicyObject<H, R>>, i: nat, j: nat)
    requires ProperNames(Names(objs)) && i < |objs| && j < |objs|
    ensures objs[i].name != ""
    ensures i != j ==> objs[i].name != objs[j].name
  {
    var name := NameColumn<H, R>();
    BagMembers(name, objs, name(objs[i]));
    assert objs[i] in objs;
    if objs[i].name == objs[j].name {
      BagPosition(name, objs, i, j);
    }
  }

  lemma {:induction false} PurgeAllAt<H, R>(
    cfg: Config<H, R>, objs: seq<PolicyObject<H, R>>, d: Desired<R>, n: nat, i: nat)
    requires i < n <= |objs|
    ensures PurgeAll(cfg, objs, d, n)[i] == PurgedObject(cfg, objs, d, i)
  {
    if i < n - 1 {
      PurgeAllAt(cfg, objs, d, n - 1, i);
    }
  }

  lemma PurgeAllNames<H, R>(cfg: Config<H, R>, objs: seq<PolicyObject<H, R>>, d: Desired<R>)
    ensures Names(PurgeAll(cfg, objs, d, |objs|)) == Names(objs)
  {
    var purged := PurgeAll(cfg, objs, d, |objs|);
    forall i | 0 <= i < |objs| ensures purged[i].name == objs[i].name {
      PurgeAllAt(cfg, objs, d, |objs|, i);
    }
    assert Map(NameColumn(), purged) == Map(NameColumn(), objs);
  }

  /** Splitting the objects into loaded and bare ones keeps their names. */
  lemma {:induction false} SplitNames<H, R>(objs: seq<PolicyObject<H, R>>)
    ensures Bag(NameColumn(), Loaded(objs)) + Bag(NameColumn(), Bare(objs)) == Bag(NameColumn(), objs)
  {
    var name := NameColumn<H, R>();
    if objs == [] {
      BagEmpty(name);
      return;
    }
    var init, last := objs[..|objs| - 1], objs[|objs| - 1];
    SplitNames(init);
    assert objs == init + [last];
    LoadedBareSnoc(init, last);
    hide *;
    BagSnoc(name, init, last);
    BagSnoc(name, Loaded(init), last);
    BagSnoc(name, Bare(init), last);
    assert Loaded(init) + [] == Loaded(init) && Bare(init) + [] == Bare(init);
  }

  lemma SlotNames<H, R>(cfg: Config<H, R>, existing: seq<PolicyObject<H, R>>, d: Desired<R>)
    ensures Names(Slots(cfg, existing, d)) == Names(existing)
  {
    var purged := PurgeAll(cfg, existing, d, |existing|);
    PurgeAllNames(cfg, existing, d);
    SplitNames(purged);
    BagConcat(NameColumn(), Loaded(purged), Bare(purged));
  }

  function HeaderColumn<H, R>(): PolicyObject<H, R> -> H {
    (o: PolicyObject<H, R>) => o.header
  }

  lemma ColumnLaws<H(!new), R(!new)>()
    ensures Lawful(IngressColumn<H, R>()) && Lawful(EgressColumn<H, R>()) && Lawful(PodColumn<H, R>())
  {
  }

  /** After a pass over one field, the others are as before in old objects and blank in new ones. */
  ghost predicate KeptElsewhere<H, R>(
    before: seq<PolicyObject<H, R>>, after: seq<PolicyObject<H, R>>, blank: PolicyObject<H, R>,
    ingress: bool, egress: bool, pods: bool)
  {
    && |before| <= |after|
    && forall i :: 0 <= i < |after| ==>
         var o, was := after[i], if i < |before| then before[i] else blank;
         && o.name == was.name && o.header == was.header
         && (ingress || o.ingress == was.ingress) && (egress || o.egress == was.egress) && (pods || o.pods == was.pods)
  }

  lemma PackIngressKeeps<H(!new), R(!new)>(objs: seq<PolicyObject<H, R>>, items: seq<R>, chunk: nat, blank: PolicyObject<H, R>)
    requires chunk > 0
    ensures KeptElsewhere(objs, PackColumn(IngressColumn(), objs, items, chunk, blank), blank, true, false, false)
  {
    var col := IngressColumn<H, R>();
    hide PackColumn;
    PackKeepsOther(col, NameColumn<H, R>(), objs, items, chunk, blank);
    PackKeepsOther(col, HeaderColumn<H, R>(), objs, items, chunk, blank);
    PackKeepsOther(col, EgressColumn<H, R>().get, objs, items, chunk, blank);
    PackKeepsOther(col, PodColumn<H, R>().get, objs, items, chunk, blank);
  }

  lemma PackEgressKeeps<H(!new), R(!new)>(objs: seq<PolicyObject<H, R>>, items: seq<R>, chunk: nat, blank: PolicyObject<H, R>)
    requires chunk > 0
    ensures KeptElsewhere(objs, PackColumn(EgressColumn(), objs, items, chunk, blank), blank, false, true, false)
  {
    var col := EgressColumn<H, R>();
    hide PackColumn;
    PackKeepsOther(col, NameColumn<H, R>(), objs, items, chunk, blank);
    PackKeepsOther(col, HeaderColumn<H, R>(), objs, items, chunk, blank);
    PackKeepsOther(col, IngressColumn<H, R>().get, objs, items, chunk, blank);
    PackKeepsOther(col, PodColumn<H, R>().get, objs, items, chunk, blank);
  }

  lemma PackPodsKeeps<H(!new), R(!new)>(objs: seq<PolicyObject<H, R>>, items: seq<PodEndpoint>, chunk: nat, blank: PolicyObject<H, R>)
    requires chunk > 0
    ensures KeptElsewhere(objs, PackColumn(PodColumn(), objs, items, chunk, blank), blank, false, false, true)
  {
    var col := PodColumn<H, R>();
    hide PackColumn;
    PackKeepsOther(col, NameColumn<H, R>(), objs, items, chunk, blank);
    PackKeepsOther(col, HeaderColumn<H, R>(), objs, items, chunk, blank);
    PackKeepsOther(col, IngressColumn<H, R>().get, objs, items, chunk, blank);
    PackKeepsOther(col, EgressColumn<H, R>().get, objs, items, chunk, blank);
  }

  /** The names marked as needed in the three passes. */
  ghost function Needed<H, R>(
    cfg: Config<H, R>, slots: seq<PolicyObject<H, R>>,
    ingress: seq<R>, egress: seq<R>, pods: seq<PodEndpoint>): set<string>
    requires cfg.chunk > 0
  {
    var packed1 := PackColumn(IngressColumn(), slots, ingress, cfg.chunk, Blank(cfg));
    var packed2 := PackColumn(EgressColumn(), packed1, egress, cfg.chunk, Blank(cfg));
    TouchedNames(IngressColumn(), NameColumn(), slots, ingress, cfg.chunk, |slots|) +
    TouchedNames(EgressColumn(), NameColumn(), packed1, egress, cfg.chunk, |packed1|) +
    TouchedNames(PodColumn(), NameColumn(), packed2, pods, cfg.chunk, |packed2|)
  }

  /** No other object has the name of object `j`. */
  ghost predicate LoneName<H, R>(objs: seq<PolicyObject<H, R>>, j: nat) {
    && j < |objs|
    && forall i | 0 <= i < |objs| && i != j :: objs[i].name != objs[j].name
  }

  lemma LoneNameKept<H, R>(
    before: seq<PolicyObject<H, R>>, after: seq<PolicyObject<H, R>>, blank: PolicyObject<H, R>,
    ingress: bool, egress: bool, pods: bool, j: nat)
    requires KeptElsewhere(before, after, blank, ingress, egress, pods)
    requires LoneName(before, j) && blank.name != before[j].name
    ensures LoneName(after, j)
  {
  }

  lemma IngressTouched<H(!new), R(!new)>(
    objs: seq<PolicyObject<H, R>>, items: seq<R>, chunk: nat, blank: PolicyObject<H, R>, j: nat)
    requires chunk > 0 && LoneName(objs, j) && objs[j].ingress == []
    ensures |objs| <= |PackColumn(IngressColumn(), objs, items, chunk, blank)|
    ensures objs[j].name in TouchedNames(IngressColumn(), NameColumn(), objs, items, chunk, |objs|) <==>
            PackColumn(IngressColumn(), objs, items, chunk, blank)[j].ingress != []
  {
    hide PackColumn, TouchedNames;
    ColumnLaws<H, R>();
    TouchedExactly(IngressColumn(), NameColumn(), objs, items, chunk, blank, j);
  }

  lemma EgressTouched<H(!new), R(!new)>(
    objs: seq<PolicyObject<H, R>>, items: seq<R>, chunk: nat, blank: PolicyObject<H, R>, j: nat)
    requires chunk > 0 && LoneName(objs, j) && objs[j].egress == []
    ensures |objs| <= |PackColumn(EgressColumn(), objs, items, chunk, blank)|
    ensures objs[j].name in TouchedNames(EgressColumn(), NameColumn(), objs, items, chunk, |objs|) <==>
            PackColumn(EgressColumn(), objs, items, chunk, blank)[j].egress != []
  {
    hide PackColumn, TouchedNames;
    ColumnLaws<H, R>();
    TouchedExactly(EgressColumn(), NameColumn(), objs, items, chunk, blank, j);
  }

  lemma PodsTouched<H(!new), R(!new)>(
    objs: seq<PolicyObject<H, R>>, items: seq<PodEndpoint>, chunk: nat, blank: PolicyObject<H, R>, j: nat)
    requires chunk > 0 && LoneName(objs, j) && objs[j].pods == []
    ensures |objs| <= |PackColumn(PodColumn(), objs, items, chunk, blank)|
    ensures objs[j].name in TouchedNames(PodColumn(), NameColumn(), objs, items, chunk, |objs|) <==>
            PackColumn(PodColumn(), objs, items, chunk, blank)[j].pods != []
  {
    hide PackColumn, TouchedNames;
    ColumnLaws<H, R>();
    TouchedExactly(PodColumn(), NameColumn(), objs, items, chunk, blank, j);
  }

  /** A candidate for deletion is marked as needed exactly when it holds something at the end:
      names of new objects are empty, so they cannot shadow an existing one. */
  lemma NeededExactly<H(!new), R(!new)>(
    cfg: Config<H, R>, slots: seq<PolicyObject<H, R>>,
    ingress: seq<R>, egress: seq<R>, pods: seq<PodEndpoint>, j: nat)
    requires cfg.chunk > 0 && ProperNames(Names(slots))
    requires j < |slots| && IsBare(slots[j])
    ensures |slots| <= |PackAll(cfg, slots, ingress, egress, pods)|
    ensures PackAll(cfg, slots, ingress, egress, pods)[j].name == slots[j].name
    ensures slots[j].name in Needed(cfg, slots, ingress, egress, pods) <==>
            !IsBare(PackAll(cfg, slots, ingress, egress, pods)[j])
  {
    var blank, chunk := Blank(cfg), cfg.chunk;
    var packed1 := PackColumn(IngressColumn(), slots, ingress, chunk, blank);
    var packed2 := PackColumn(EgressColumn(), packed1, egress, chunk, blank);
    var packed3 := PackColumn(PodColumn(), packed2, pods, chunk, blank);
    hide PackColumn, TouchedNames, Names, ProperNames;
    forall i | 0 <= i < |slots| ensures slots[i].name != "" && (i != j ==> slots[i].name != slots[j].name) {
      NameApart(slots, i, j);
    }
    PackIngressKeeps(slots, ingress, chunk, blank);
    LoneNameKept(slots, packed1, blank, true, false, false, j);
    PackEgressKeeps(packed1, egress, chunk, blank);
    LoneNameKept(packed1, packed2, blank, false, true, false, j);
    PackPodsKeeps(packed2, pods, chunk, blank);
    IngressTouched(slots, ingress, chunk, blank, j);
    EgressTouched(packed1, egress, chunk, blank, j);
    PodsTouched(packed2, pods, chunk, blank, j);
  }

  // ---------------------------------------------------------------- computing the plan

  /** Sorts the candidates into those that received something and those that did not. */
  method SplitCandidates<H, R>(candidates: seq<PolicyObject<H, R>>, doNotDelete: set<string>)
    returns (update: seq<PolicyObject<H, R>>, delete: seq<PolicyObject<H, R>>)
    requires forall o | o in candidates :: o.name in doNotDelete <==> !IsBare(o)
    ensures update == Loaded(candidates) && delete == Bare(candidates)
  {
    update, delete := [], [];
    for i := 0 to |candidates|
      invariant update == Loaded(candidates[..i]) && delete == Bare(candidates[..i])
    {
      assert candidates[..i + 1] == candidates[..i] + [candidates[i]];
      LoadedBareSnoc(candidates[..i], candidates[i]);
      if candidates[i].name in doNotDelete {
        update := update + [candidates[i]];
      } else {
        delete := delete + [candidates[i]];
      }
    }
    assert candidates[..|candidates|] == candidates;
  }

  lemma PlanForDef<H, R>(
    cfg: Config<H, R>, existing: seq<PolicyObject<H, R>>, d: Desired<R>, order: Order,
    modified: seq<PolicyObject<H, R>>, candidates: seq<PolicyObject<H, R>>, created: seq<PolicyObject<H, R>>)
    requires cfg.chunk > 0 && ValidOrder(cfg, existing, d, order)
    requires (forall k | k in order.ingress :: k in d.ingress) && (forall k | k in order.egress :: k in d.egress)
    requires |modified| == |Loaded(PurgeAll(cfg, existing, d, |existing|))|
    requires |candidates| == |Bare(PurgeAll(cfg, existing, d, |existing|))|
    requires modified + candidates + created ==
             PackAll(cfg, Slots(cfg, existing, d), Lookup(d.ingress, order.ingress), Lookup(d.egress, order.egress), order.pods)
    ensures PlanFor(cfg, existing, d, order) == Finish(cfg, modified, candidates, created)
  {
    var packed := modified + candidates + created;
    hide PackAll, PurgeAll, Loaded, Bare;
    assert packed[..|modified|] == modified;
    assert packed[|modified|..|modified| + |candidates|] == candidates;
    assert packed[|modified| + |candidates|..] == created;
  }

  lemma CandidatesNeeded<H(!new), R(!new)>(
    cfg: Config<H, R>, existing: seq<PolicyObject<H, R>>, d: Desired<R>,
    ingress: seq<R>, egress: seq<R>, pods: seq<PodEndpoint>,
    modified: seq<PolicyObject<H, R>>, candidates: seq<PolicyObject<H, R>>, created: seq<PolicyObject<H, R>>)
    requires cfg.chunk > 0 && ProperNames(Names(existing))
    requires |modified| == |Loaded(PurgeAll(cfg, existing, d, |existing|))|
    requires |candidates| == |Bare(PurgeAll(cfg, existing, d, |existing|))|
    requires modified + candidates + created == PackAll(cfg, Slots(cfg, existing, d), ingress, egress, pods)
    ensures forall o | o in candidates ::
              o.name in Needed(cfg, Slots(cfg, existing, d), ingress, egress, pods) <==> !IsBare(o)
  {
    hide PackAll, PurgeAll, Needed, Names, ProperNames;
    var slots, packed := Slots(cfg, existing, d), modified + candidates + created;
    SlotNames(cfg, existing, d);
    forall o | o in candidates ensures o.name in Needed(cfg, slots, ingress, egress, pods) <==> !IsBare(o) {
      var i :| 0 <= i < |candidates| && candidates[i] == o;
      var j := |modified| + i;
      assert slots[j] == Bare(PurgeAll(cfg, existing, d, |existing|))[i];
      NeededExactly(cfg, slots, ingress, egress, pods, j);
      assert packed[j] == o;
    }
  }

  /** computePolicyEndpoints, computeApplicationNetworkPolicyEndpoints and
      computeClusterPolicyEndpoints up to the merging of rules. */
  method ComputeEndpoints<H(==, !new), R(!new)>(
    cfg: Config<H, R>, existing: seq<PolicyObject<H, R>>, ingress: seq<R>, egress: seq<R>, pods: seq<PodEndpoint>)
    returns (create: seq<PolicyObject<H, R>>, update: seq<PolicyObject<H, R>>, delete: seq<PolicyObject<H, R>>,
             ghost order: Order)
    requires cfg.chunk > 0 && ProperNames(Names(existing))
    ensures |create| + |update| >= 1 && forall o | o in delete :: IsBare(o)
    ensures ValidOrder(cfg, existing, DesiredOf(cfg.key, ingress, egress, pods), order)
    ensures Plan(create, update, delete) == PlanFor(cfg, existing, DesiredOf(cfg.key, ingress, egress, pods), order)
  {
    hide PackColumn, TouchedNames, PurgeAll, Loaded, Bare, Left, Lists, Names, ProperNames, PlanFor, Lookup,
      IngressColumn, EgressColumn, PodColumn, NameColumn, Itself, Ingresses, Egresses, PodLists, ByKey, Blank, IsBare;
    var ingressMap := IndexByKey(cfg.key, ingress);
    var egressMap := IndexByKey(cfg.key, egress);
    var d := Desired(ingressMap, egressMap, set p | p in pods);
    var ingressLeft, egressLeft, podsLeft, modified, potentialDeletes := ProcessExisting(cfg, existing, d);
    ghost var slots := modified + potentialDeletes;

    var ingressKeys := Enumerate(ingressLeft);
    var egressKeys := Enumerate(egressLeft);
    var podList := Enumerate(podsLeft);
    order := Order(ingressKeys, egressKeys, podList);
    OrderInMap(cfg, existing, d, order);

    var created: seq<PolicyObject<H, R>>, names, more := [], {}, {};
    var ingressItems, egressItems := Lookup(ingressMap, ingressKeys), Lookup(egressMap, egressKeys);
    assert slots + created == slots;
    modified, potentialDeletes, created, names :=
      Pack(IngressColumn(), NameColumn(), modified, potentialDeletes, created, ingressItems, cfg.chunk, Blank(cfg));
    modified, potentialDeletes, created, more :=
      Pack(EgressColumn(), NameColumn(), modified, potentialDeletes, created, egressItems, cfg.chunk, Blank(cfg));
    names := names + more;
    modified, potentialDeletes, created, more :=
      Pack(PodColumn(), NameColumn(), modified, potentialDeletes, created, podList, cfg.chunk, Blank(cfg));
    names := names + more;
    CandidatesNeeded(cfg, existing, d, ingressItems, egressItems, podList, modified, potentialDeletes, created);
    PlanForDef(cfg, existing, d, order, modified, potentialDeletes, created);

    update, delete := SplitCandidates(potentialDeletes, names);
    update := update + modified;
    create := created;
    if |create| == 0 && |update| == 0 {
      if |delete| == 0 {
        create := create + [Blank(cfg)];
      } else {
        update := update + [delete[0]];
        delete := delete[1..];
      }
    }
  }
}
