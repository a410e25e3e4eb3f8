/** Two full objects with reordered copies of the desired rules: one round writes nothing and
    another one with the same desired endpoints writes; and between the two writes, traffic that
    was admitted before and is desired is not admitted. */
module Restless {
  import opened Basics
  import opened PolicyInfo
  import opened Packing
  import opened Purge
  import opened RuleKeys
  import opened Combine
  import opened Reconciler
  import opened Placement
  import opened Equality
  import opened Store
  import opened Convergence
  import opened Repacking
  import opened RoundResult
  import opened ReorderedCopies
  import opened Quiescence
  import opened UpdateGaps
  import opened Labels

  // ---------------------------------------------------------------- two full slots

  /** An object that holds one ingress rule, or none. */
  predicate Holds(o: PolicyEndpoint, rules: seq<EndpointInfo>) {
    o.ingress == rules && o.egress == [] && o.pods == []
  }

  lemma PurgedStale(cfg: Config<PolicyHeader, EndpointInfo>, objs: seq<PolicyEndpoint>, d: Desired<EndpointInfo>, i: nat, stale: EndpointInfo)
    requires i < |objs| && Holds(objs[i], [stale]) && cfg.key(stale) !in d.ingress && cfg.refresh(objs[i].header) == objs[i].header
    ensures PurgedObject(cfg, objs, d, i) == objs[i].(ingress := [])
  {
    assert [stale][..0] == [];
  }

  lemma TwoPurged(cfg: Config<PolicyHeader, EndpointInfo>, x: PolicyEndpoint, y: PolicyEndpoint, d: Desired<EndpointInfo>, p: EndpointInfo, q: EndpointInfo)
    requires Holds(x, [p]) && Holds(y, [q]) && cfg.key(p) !in d.ingress && cfg.key(q) !in d.ingress
    requires cfg.refresh(x.header) == x.header && cfg.refresh(y.header) == y.header
    ensures PurgeAll(cfg, [x, y], d, 2) == [x.(ingress := []), y.(ingress := [])]
    ensures Loaded(PurgeAll(cfg, [x, y], d, 2)) == [] && Bare(PurgeAll(cfg, [x, y], d, 2)) == PurgeAll(cfg, [x, y], d, 2)
    ensures Slots(cfg, [x, y], d) == PurgeAll(cfg, [x, y], d, 2)
  {
    var objs := [x, y];
    PurgedStale(cfg, objs, d, 0, p);
    PurgedStale(cfg, objs, d, 1, q);
    assert PurgeAll(cfg, objs, d, 1) == PurgeAll(cfg, objs, d, 0) + [PurgedObject(cfg, objs, d, 0)];
    var bare := [x.(ingress := []), y.(ingress := [])];
    assert PurgeAll(cfg, objs, d, 2) == bare;
    hide PurgeAll, PurgedObject;
    LoadedBareNone<PolicyHeader, EndpointInfo>();
    LoadedBareSnoc([], bare[0]);
    LoadedBareSnoc([bare[0]], bare[1]);
    assert bare == [bare[0]] + [bare[1]] && [] + [bare[0]] == [bare[0]];
  }

  /** One entry per object fills both. */
  lemma TwoPacked(cfg: Config<PolicyHeader, EndpointInfo>, x: PolicyEndpoint, y: PolicyEndpoint, u: EndpointInfo, v: EndpointInfo)
    requires cfg.chunk == 1 && Holds(x, []) && Holds(y, [])
    ensures PackAll(cfg, [x, y], [u, v], [], []) == [x.(ingress := [u]), y.(ingress := [v])]
  {
    var col, objs, items := IngressColumn<PolicyHeader, EndpointInfo>(), [x, y], [u, v];
    var lens := Lens(col, objs);
    assert lens == [0, 0];
    assert Offset(lens, 2, 1, 0) == 0 && Offset(lens, 2, 1, 1) == 1 && Offset(lens, 2, 1, 2) == 2;
    assert Slice(lens, items, 1, 0) == [u] && Slice(lens, items, 1, 1) == [v];
    FilledAt(col, objs, items, 1, 2, 0);
    FilledAt(col, objs, items, 1, 2, 1);
    var packed := [x.(ingress := [u]), y.(ingress := [v])];
    assert LeftOver(col, objs, items, 1) == [] && Chunks<EndpointInfo>([], 1) == [];
    assert x.ingress + [u] == [u] && y.ingress + [v] == [v];
    assert Filled(col, objs, items, 1, 2) == packed;
    assert Filled(col, objs, items, 1, 2) + Fresh(col, Blank(cfg), []) == packed;
    assert PackColumn(col, objs, items, 1, Blank(cfg)) == packed;
    hide PackColumn;
    PackNothing(EgressColumn<PolicyHeader, EndpointInfo>(), packed, 1, Blank(cfg));
    PackNothing(PodColumn<PolicyHeader, EndpointInfo>(), packed, 1, Blank(cfg));
  }

  lemma TwoFinished(cfg: Config<PolicyHeader, EndpointInfo>, x: PolicyEndpoint, y: PolicyEndpoint, u: EndpointInfo, v: EndpointInfo)
    requires Holds(x, [u]) && Holds(y, [v])
    ensures Finish(cfg, [], [x, y], []) == Plan([], [x, y], [])
  {
    AllLoaded([x, y]);
    hide Loaded, Bare;
    assert [x, y] + [] == [x, y];
  }

  /** Two desired rules, in either order. */
  ghost predicate Wants(d: Desired<EndpointInfo>, key: EndpointInfo -> string, u: EndpointInfo, v: EndpointInfo) {
    && d.ingress == map[key(u) := u, key(v) := v] && key(u) != key(v)
    && d.egress == map[] && d.pods == {}
  }

  function TwoOrder(key: EndpointInfo -> string, u: EndpointInfo, v: EndpointInfo): Order {
    Order([key(u), key(v)], [], [])
  }

  lemma TwoValidOrder(cfg: Config<PolicyHeader, EndpointInfo>, x: PolicyEndpoint, y: PolicyEndpoint, d: Desired<EndpointInfo>,
                      p: EndpointInfo, q: EndpointInfo, u: EndpointInfo, v: EndpointInfo)
    requires Holds(x, [p]) && Holds(y, [q]) && cfg.key(p) !in d.ingress && cfg.key(q) !in d.ingress && Wants(d, cfg.key, u, v)
    ensures ValidOrder(cfg, [x, y], d, TwoOrder(cfg.key, u, v))
  {
    var held := Ingresses([x, y]);
    assert held == [[p], [q]];
    forall k ensures k in d.ingress.Keys ==> k !in ColumnBag(cfg.key, held) {
      ColumnBagMembers(cfg.key, held, k);
    }
    var left := Left(cfg.key, held, d.ingress.Keys);
    assert left == {cfg.key(u), cfg.key(v)};
    assert multiset([cfg.key(u), cfg.key(v)]) == multiset(left);
  }

  /** With one rule per object, the objects receive the rules in the order of the map. */
  lemma TwoPlanned(cfg: Config<PolicyHeader, EndpointInfo>, x: PolicyEndpoint, y: PolicyEndpoint, d: Desired<EndpointInfo>,
                   p: EndpointInfo, q: EndpointInfo, u: EndpointInfo, v: EndpointInfo)
    requires cfg.chunk == 1 && Holds(x, [p]) && Holds(y, [q]) && cfg.key(p) !in d.ingress && cfg.key(q) !in d.ingress
    requires cfg.refresh(x.header) == x.header && cfg.refresh(y.header) == y.header && Wants(d, cfg.key, u, v)
    ensures ValidOrder(cfg, [x, y], d, TwoOrder(cfg.key, u, v))
    ensures PlanFor(cfg, [x, y], d, TwoOrder(cfg.key, u, v)) == Plan([], [x.(ingress := [u]), y.(ingress := [v])], [])
  {
    hide PlanFor, ValidOrder, PackAll, PurgeAll, Loaded, Bare, Slots, Finish;
    var order := TwoOrder(cfg.key, u, v);
    var a, b := x.(ingress := [u]), y.(ingress := [v]);
    TwoValidOrder(cfg, x, y, d, p, q, u, v);
    TwoPurged(cfg, x, y, d, p, q);
    TwoPacked(cfg, x.(ingress := []), y.(ingress := []), u, v);
    assert Lookup(d.ingress, order.ingress) == [u, v] && Lookup(d.egress, order.egress) == [];
    assert [] + [a, b] + [] == [a, b];
    PlanForDef(cfg, [x, y], d, order, [], [a, b], []);
    TwoFinished(cfg, a, b, u, v);
  }

  // ---------------------------------------------------------------- the rounds

  lemma CombinedAlone(e: EndpointInfo)
    ensures CombinedFrom([e], [e]) && CombinedFrom([], [])
  {
    var m := CombineMap([e]);
    assert [e][..|[e]| - 1] == [];
    hide CombineKey;
    assert CombineMap([e]) == (var k := CombineKey(e); CombineMap([])[k := e]);
    assert m == map[CombineKey(e) := e];
    assert Lists([CombineKey(e)], m.Keys) by { assert m.Keys == {CombineKey(e)}; }
    assert [e] == Lookup(m, [CombineKey(e)]);
    assert [] == Lookup(CombineMap([]), []);
    assert Lists([], CombineMap([]).Keys);
  }

  lemma MergedAlone(o: PolicyEndpoint, e: EndpointInfo)
    requires Holds(o, [e])
    ensures MergedObject(o, o)
  {
    hide CombinedFrom;
    CombinedAlone(e);
  }

  /** Two objects, each holding a stale rule, under the policy's own header. */
  ghost predicate StaleStore(s: Objects, policy: Policy, p: EndpointInfo, q: EndpointInfo) {
    && s.Keys == {"x", "y"} && s["x"].name == "x" && s["y"].name == "y"
    && Holds(s["x"], [p]) && Holds(s["y"], [q])
    && s["x"].header == s["y"].header == ConfigOf(policy, 1).header
  }

  function TwoRound(policy: Policy, resolved: Resolved, s: Objects, u: EndpointInfo, v: EndpointInfo): Round
    requires "x" in s && "y" in s
  {
    Round(policy, 1, resolved, ["x", "y"], TwoOrder(EndpointInfoKey, u, v),
      Plan([], [s["x"].(ingress := [u]), s["y"].(ingress := [v])], []), [])
  }

  lemma TwoRoundValid(s: Objects, policy: Policy, resolved: Resolved, p: EndpointInfo, q: EndpointInfo, u: EndpointInfo, v: EndpointInfo)
    requires StaleStore(s, policy, p, q) && ValidResolved(resolved) && Wants(DesiredBy(resolved), EndpointInfoKey, u, v)
    requires EndpointInfoKey(p) !in DesiredBy(resolved).ingress && EndpointInfoKey(q) !in DesiredBy(resolved).ingress
    ensures RoundValid(s, TwoRound(policy, resolved, s, u, v))
  {
    hide EndpointInfoKey, ByKey, PlanFor, ValidOrder, ValidRules, CombinedFrom;
    var r := TwoRound(policy, resolved, s, u, v);
    var cfg := ConfigOf(policy, 1);
    assert ObjectsListed(s, ["x", "y"]) == [s["x"], s["y"]];
    assert "x" != "y" by { assert "x"[0] != "y"[0]; }
    assert multiset(["x", "y"]) == multiset(s.Keys);
    TwoPlanned(cfg, s["x"], s["y"], DesiredBy(resolved), p, q, u, v);
    MergedAlone(r.plan.update[0], u);
    MergedAlone(r.plan.update[1], v);
  }

  lemma TwoWrites(s: Objects, update: seq<PolicyEndpoint>)
    requires |update| == 2
    ensures UpdateWrites(s, update) == UpdateWrite(s, update[0]) + UpdateWrite(s, update[1])
  {
    assert update[..1][..0] == [];
    assert update[..1] == [update[0]];
    hide UpdateWrite;
    assert UpdateWrites(s, update[..1]) == UpdateWrites(s, []) + UpdateWrite(s, update[0]);
  }

  lemma SameUpToOrder(o: PolicyEndpoint, p: EndpointInfo, u: EndpointInfo)
    requires Holds(o, [p]) && ValidRule(p) && ValidRule(u)
    ensures SpecEqual(o, o.(ingress := [u])) <==> CanonOf(p) == CanonOf(u)
  {
    EndpointTextExact(p, u);
    hide EndpointText, CanonOf, PodText, ValidRule;
    assert Map(EndpointText, [p]) == [EndpointText(p)] && Map(EndpointText, [u]) == [EndpointText(u)];
    assert EndpointText(p) in multiset([EndpointText(p)]);
    assert Bag(EndpointText, [p]) == Bag(EndpointText, [u]) <==> EndpointText(p) == EndpointText(u);
  }

  lemma TwoRoundWrites(s: Objects, policy: Policy, resolved: Resolved, p: EndpointInfo, q: EndpointInfo, u: EndpointInfo, v: EndpointInfo)
    requires StaleStore(s, policy, p, q) && ValidRule(p) && ValidRule(q) && ValidRule(u) && ValidRule(v)
    ensures var r := TwoRound(policy, resolved, s, u, v);
            Writes(s, r) == [] <==> CanonOf(p) == CanonOf(u) && CanonOf(q) == CanonOf(v)
  {
    hide SpecEqual, CanonOf, ValidRule, UpdateWrites;
    var r := TwoRound(policy, resolved, s, u, v);
    TwoWrites(s, r.plan.update);
    SameUpToOrder(s["x"], p, u);
    SameUpToOrder(s["y"], q, v);
  }

  // ---------------------------------------------------------------- copies in two objects

  /** After the first round another one still writes. */
  ghost predicate NotQuiet(s: Objects, r: Round, again: Round) {
    && ValidStore(s) && Repeats(s, r, again) && Apart(r.resolved)
    && |again.names| == |again.plan.create| && Writes(StoreAfter(s, r), again) != []
  }

  /** Whatever the store and the chunk size: when a complete round leaves reordered copies in two
      objects, some further round writes. */
  lemma ReorderedCopiesKeepWriting(s: Objects, r: Round, dir: Direction, n: string, m: string)
    requires ValidStore(s) && RoundValid(s, r) && Apart(r.resolved) && n != m
    requires n in StoreAfter(s, r) && HasCopies(StoreAfter(s, r)[n], r.resolved, dir)
    requires m in StoreAfter(s, r) && HasCopies(StoreAfter(s, r)[m], r.resolved, dir)
    ensures exists again :: NotQuiet(s, r, again)
  {
    hide *;
    RoundReaches(s, r);
    RoundListing(s, r);
    var again := TwoHoldersWrite(StoreAfter(s, r), r.policy, r.resolved, r.chunk, dir, n, m);
    RepeatsDef(s, r, again);
    NotQuietDef(s, r, again);
  }

  lemma NotQuietDef(s: Objects, r: Round, again: Round)
    requires ValidStore(s) && Repeats(s, r, again) && Apart(r.resolved) && RoundValid(StoreAfter(s, r), again)
    requires |again.names| == |again.plan.create| && Writes(StoreAfter(s, r), again) != []
    ensures NotQuiet(s, r, again)
  {
    hide RoundValid, Writes, ValidStore, StoreAfter, Repeats, Apart;
  }

  // ---------------------------------------------------------------- the example

  lemma TwoDesired(a: EndpointInfo, b: EndpointInfo)
    requires ValidRule(a) && ValidRule(b) && a != b
    ensures Wants(DesiredBy(Resolved([a, b], [], [])), EndpointInfoKey, a, b)
    ensures Wants(DesiredBy(Resolved([a, b], [], [])), EndpointInfoKey, b, a)
  {
    hide EndpointInfoKey, ValidRule;
    assert [a, b][..1] == [a] && [a][..0] == [];
    if EndpointInfoKey(a) == EndpointInfoKey(b) {
      EndpointInfoKeyInjective(a, b);
    }
    var m := ByKey(EndpointInfoKey, [a, b]);
    assert ByKey(EndpointInfoKey, [a]) == map[EndpointInfoKey(a) := a];
    assert m == map[EndpointInfoKey(a) := a, EndpointInfoKey(b) := b];
  }

  lemma NotDesired(a: EndpointInfo, b: EndpointInfo, p: EndpointInfo)
    requires ValidRule(a) && ValidRule(b) && ValidRule(p) && a != b && p != a && p != b
    ensures EndpointInfoKey(p) !in DesiredBy(Resolved([a, b], [], [])).ingress
  {
    TwoDesired(a, b);
    hide EndpointInfoKey, ByKey, ValidRule;
    if EndpointInfoKey(p) == EndpointInfoKey(a) {
      EndpointInfoKeyInjective(p, a);
    }
    if EndpointInfoKey(p) == EndpointInfoKey(b) {
      EndpointInfoKeyInjective(p, b);
    }
  }

  lemma TwoResolved(a: EndpointInfo, b: EndpointInfo)
    requires ValidRule(a) && ValidRule(b) && CombineKey(a) != CombineKey(b)
    ensures a != b && ValidResolved(Resolved([a, b], [], []))
    ensures Apart(Resolved([a, b], [], []))
  {
    hide ValidRule, CombineKey;
  }

  lemma StaleNames(s: Objects, policy: Policy, p: EndpointInfo, q: EndpointInfo)
    requires StaleStore(s, policy, p, q)
    ensures "x" in s && "y" in s
  {
  }

  lemma TwoRoundParts(policy: Policy, resolved: Resolved, s: Objects, u: EndpointInfo, v: EndpointInfo)
    requires "x" in s && "y" in s
    ensures var r := TwoRound(policy, resolved, s, u, v);
            && r.policy == policy && r.chunk == 1 && r.resolved == resolved && |r.names| == |r.plan.create|
  {
  }

  lemma StaleStoreValid(s: Objects, policy: Policy, p: EndpointInfo, q: EndpointInfo)
    requires StaleStore(s, policy, p, q) && ValidRule(p) && ValidRule(q)
    ensures ValidStore(s)
  {
    hide ValidRule;
  }

  /** The two objects hold copies of the desired rules. */
  lemma StaleCopies(s: Objects, policy: Policy, p: EndpointInfo, q: EndpointInfo, a: EndpointInfo, b: EndpointInfo)
    requires StaleStore(s, policy, p, q) && CanonOf(p) == CanonOf(a) && CanonOf(q) == CanonOf(b) && p != a && q != b
    ensures "x" in s && HasCopies(s["x"], Resolved([a, b], [], []), Ingress)
    ensures "y" in s && HasCopies(s["y"], Resolved([a, b], [], []), Ingress)
  {
    hide CanonOf;
    var resolved := Resolved([a, b], [], []);
    assert s["x"].ingress == [p] && s["y"].ingress == [q];
    assert p in RulesOf(s["x"], Ingress) && q in RulesOf(s["y"], Ingress);
    assert a in RulesWanted(resolved, Ingress) && b in RulesWanted(resolved, Ingress);
    assert ReorderedCopy(p, RulesWanted(resolved, Ingress)) && ReorderedCopy(q, RulesWanted(resolved, Ingress));
  }

  lemma QuietStaysSame(s: Objects, r: Round)
    requires RoundValid(s, r) && |r.names| == |r.plan.create| && Writes(s, r) == []
    ensures StoreAfter(s, r) == s
  {
    hide RoundValid, Writes;
  }

  /** A round that visits the rules in the order in which their copies are stored writes nothing;
      another one writes. */
  lemma StaleStoreKeepsWriting(s: Objects, policy: Policy, p: EndpointInfo, q: EndpointInfo, a: EndpointInfo, b: EndpointInfo)
    requires StaleStore(s, policy, p, q) && ValidRule(p) && ValidRule(q) && ValidRule(a) && ValidRule(b)
    requires CombineKey(a) != CombineKey(b) && CanonOf(p) == CanonOf(a) && CanonOf(q) == CanonOf(b) && CanonOf(a) != CanonOf(b)
    requires p != a && q != b
    ensures exists r, again :: NotQuiet(s, r, again)
  {
    hide *;
    var resolved := Resolved([a, b], [], []);
    TwoResolved(a, b);
    StaleNames(s, policy, p, q);
    var r := TwoRound(policy, resolved, s, a, b);
    TwoRoundParts(policy, resolved, s, a, b);
    TwoDesired(a, b);
    NotDesired(a, b, p);
    NotDesired(a, b, q);
    StaleStoreValid(s, policy, p, q);
    TwoRoundValid(s, policy, resolved, p, q, a, b);
    TwoRoundWrites(s, policy, resolved, p, q, a, b);
    QuietStaysSame(s, r);
    StaleCopies(s, policy, p, q, a, b);
    DifferentNames();
    ReorderedCopiesKeepWriting(s, r, Ingress, "x", "y");
  }

  lemma DifferentNames()
    ensures "x" != "y"
  {
    assert "x"[0] != "y"[0];
  }

  /** A rule for two ports, in either order. */
  function Example(cidr: string, flipped: bool): EndpointInfo {
    var tcp, udp := Port(Some("TCP"), Some(53), None), Port(Some("UDP"), Some(53), None);
    EndpointInfo(cidr, [], if flipped then [udp, tcp] else [tcp, udp], "")
  }

  lemma ExampleValid(cidr: string, flipped: bool)
    requires cidr != "" && CleanAddress(cidr)
    ensures ValidRule(Example(cidr, flipped))
  {
    assert CleanAddress("") && CleanProtocol("TCP") && CleanProtocol("UDP");
    hide CleanAddress, CleanProtocol;
  }

  lemma ExampleCopies(cidr: string)
    ensures Example(cidr, true) != Example(cidr, false)
    ensures CanonOf(Example(cidr, true)) == CanonOf(Example(cidr, false))
  {
    assert Example(cidr, true).ports[0].protocol.value[0] != Example(cidr, false).ports[0].protocol.value[0];
  }

  lemma ExampleApart(c: string, d: string, flipped: bool)
    requires c != d && c != "" && d != "" && CleanAddress(c) && CleanAddress(d)
    ensures CombineKey(Example(c, flipped)) != CombineKey(Example(d, flipped))
    ensures CanonOf(Example(c, flipped)) != CanonOf(Example(d, flipped))
  {
    ExampleValid(c, flipped);
    ExampleValid(d, flipped);
    hide CombineKey, ValidRule;
    if CombineKey(Example(c, flipped)) == CombineKey(Example(d, flipped)) {
      CombineKeyIdentity(Example(c, flipped), Example(d, flipped));
    }
  }

  function ExampleStore(policy: Policy, p: EndpointInfo, q: EndpointInfo): Objects {
    map["x" := PolicyObject("x", ConfigOf(policy, 1).header, [p], [], []),
        "y" := PolicyObject("y", ConfigOf(policy, 1).header, [q], [], [])]
  }

  lemma ExampleStoreStale(policy: Policy, p: EndpointInfo, q: EndpointInfo)
    ensures StaleStore(ExampleStore(policy, p, q), policy, p, q)
  {
    assert "x"[0] != "y"[0];
  }

  /** Such a store exists: quiescence fails without the condition on reordered copies. */
  lemma QuiescenceNeedsNoReorderedCopies()
    ensures exists s, r, again :: NotQuiet(s, r, again)
  {
    var c, d := "::1", "::2";
    var policy := Policy("policy", "ns", LabelSelector(map[], []), ["Ingress"]);
    assert c[2] != d[2] && CleanAddress(c) && CleanAddress(d);
    hide *;
    ExampleValid(c, true);
    ExampleValid(c, false);
    ExampleValid(d, true);
    ExampleValid(d, false);
    ExampleCopies(c);
    ExampleCopies(d);
    ExampleApart(c, d, false);
    ExampleStoreStale(policy, Example(c, true), Example(d, true));
    StaleStoreKeepsWriting(ExampleStore(policy, Example(c, true), Example(d, true)), policy,
      Example(c, true), Example(d, true), Example(c, false), Example(d, false));
  }

  // ---------------------------------------------------------------- a gap between two updates

  /** The flow is admitted before the round and desired, but not at every prefix of its writes. */
  ghost predicate Gap(s: Objects, r: Round, net: Network, dir: Direction, f: Flow) {
    && ValidStore(s) && RoundValid(s, r) && |r.names| == |r.plan.create|
    && Published(net, s, dir, f) && AdmittedBy(net, RulesWanted(r.resolved, dir), f)
    && exists k: nat :: k <= |Writes(s, r)| && !Published(net, ApplyAll(s, Writes(s, r)[..k]), dir, f)
  }

  lemma HeldAlone(net: Network, o: PolicyEndpoint, e: EndpointInfo, f: Flow)
    requires Holds(o, [e])
    ensures Shows(net, o, Ingress, f) <==> Admits(net, e, f)
    ensures AdmittedBy(net, RulesOf(o, Ingress), f) <==> Admits(net, e, f)
  {
    hide Admits;
    assert e in [e];
  }

  /** Only the later update admits the flow, and only the earlier object still does. */
  lemma ExchangeUncovered(s: Objects, policy: Policy, p: EndpointInfo, q: EndpointInfo, a: EndpointInfo, b: EndpointInfo, net: Network, f: Flow)
    requires StaleStore(s, policy, p, q)
    requires Admits(net, p, f) && Admits(net, b, f) && !Admits(net, q, f) && !Admits(net, a, f)
    ensures "x" in s && "y" in s
    ensures !Covered(s, TwoRound(policy, Resolved([a, b], [], []), s, a, b), net, Ingress, f)
    ensures Published(net, s, Ingress, f) && AdmittedBy(net, [a, b], f)
  {
    hide Admits, Shows, RulesOf;
    HeldAlone(net, s["x"], p, f);
    HeldAlone(net, s["y"], q, f);
    HeldAlone(net, s["x"].(ingress := [a]), a, f);
    HeldAlone(net, s["y"].(ingress := [b]), b, f);
    assert b in [a, b];
  }

  lemma GapFrom(s: Objects, r: Round, net: Network, dir: Direction, f: Flow)
    requires ValidStore(s) && RoundValid(s, r)
    requires Published(net, s, dir, f) && AdmittedBy(net, RulesWanted(r.resolved, dir), f) && !Covered(s, r, net, dir, f)
    ensures Gap(s, r, net, dir, f)
  {
    StaysExactly(s, r, net, dir, f);
    hide RoundValid, ValidStore, Writes, Published, AdmittedBy, RulesWanted, Covered;
  }

  /** Exchanging the rules of two full objects: the update of the first one removes the rule that
      the update of the second one adds. */
  lemma ExchangeOpensGap(s: Objects, policy: Policy, p: EndpointInfo, q: EndpointInfo, a: EndpointInfo, b: EndpointInfo, net: Network, f: Flow)
    requires StaleStore(s, policy, p, q) && ValidRule(p) && ValidRule(q) && ValidRule(a) && ValidRule(b)
    requires CombineKey(a) != CombineKey(b) && CanonOf(p) == CanonOf(b) && CanonOf(q) == CanonOf(a) && CanonOf(a) != CanonOf(b)
    requires p != b && q != a && Admits(net, b, f) && !Admits(net, a, f)
    ensures "x" in s && "y" in s
    ensures Gap(s, TwoRound(policy, Resolved([a, b], [], []), s, a, b), net, Ingress, f)
  {
    var resolved := Resolved([a, b], [], []);
    hide *;
    TwoResolved(a, b);
    StaleNames(s, policy, p, q);
    var r := TwoRound(policy, resolved, s, a, b);
    TwoRoundParts(policy, resolved, s, a, b);
    TwoDesired(a, b);
    OtherThan(p, q, a, b);
    NotDesired(a, b, p);
    NotDesired(a, b, q);
    StaleStoreValid(s, policy, p, q);
    TwoRoundValid(s, policy, resolved, p, q, a, b);
    SameCanonAdmits(p, b, net, f);
    SameCanonAdmits(q, a, net, f);
    ExchangeUncovered(s, policy, p, q, a, b, net, f);
    assert RulesWanted(resolved, Ingress) == [a, b] by { IngressWanted(a, b); }
    GapFrom(s, r, net, Ingress, f);
  }

  lemma IngressWanted(a: EndpointInfo, b: EndpointInfo)
    ensures RulesWanted(Resolved([a, b], [], []), Ingress) == [a, b]
  {
  }

  lemma OtherThan(p: EndpointInfo, q: EndpointInfo, a: EndpointInfo, b: EndpointInfo)
    requires CanonOf(p) == CanonOf(b) && CanonOf(q) == CanonOf(a) && CanonOf(a) != CanonOf(b)
    ensures p != a && q != b
  {
  }

  function SameText(): Network { Network((cidr, ip) => cidr == ip, (domain, name) => domain == name) }

  lemma ExampleAdmits(c: string, d: string, flipped: bool)
    requires c != d
    ensures Admits(SameText(), Example(c, flipped), Flow(Address(c), "TCP", 53))
    ensures !Admits(SameText(), Example(d, flipped), Flow(Address(c), "TCP", 53))
  {
    var e, f := Example(c, flipped), Flow(Address(c), "TCP", 53);
    var tcp := Port(Some("TCP"), Some(53), None);
    assert tcp in e.ports && PortAdmits(tcp, f);
  }

  /** Such a gap exists: prefixes of a round do not keep all traffic that is both published and
      desired, only that of desired rules stored as they stand. */
  lemma MovedRuleOpensGap()
    ensures exists s, r, net, f :: Gap(s, r, net, Ingress, f)
  {
    var c, d := "::1", "::2";
    var policy := Policy("policy", "ns", LabelSelector(map[], []), ["Ingress"]);
    assert c[2] != d[2] && CleanAddress(c) && CleanAddress(d);
    hide *;
    ExampleValid(c, true);
    ExampleValid(c, false);
    ExampleValid(d, true);
    ExampleValid(d, false);
    ExampleCopies(c);
    ExampleCopies(d);
    ExampleApart(c, d, false);
    var s := ExampleStore(policy, Example(c, true), Example(d, true));
    ExampleStoreStale(policy, Example(c, true), Example(d, true));
    ExampleAdmits(c, d, false);
    ExchangeOpensGap(s, policy, Example(c, true), Example(d, true), Example(d, false), Example(c, false),
      SameText(), Flow(Address(c), "TCP", 53));
  }
}
