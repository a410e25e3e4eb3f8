/** Merging does not depend on the order of the rules: permuted lists merge to the same rules,
    up to the order of the result and of the ports inside the rules. */
module MergeOrder {
  import opened Basics
  import opened Permutations
  import opened PolicyInfo
  import opened Combine
  import opened Equality

  /** No two different ports of these rules have the same text for deduplicatePorts, which reads
      an absent protocol as TCP. */
  ghost predicate PortsApart(rules: seq<EndpointInfo>) {
    forall a, b, p, q | a in rules && b in rules && p in a.ports && q in b.ports ::
      PortKey(p) == PortKey(q) ==> p == q
  }

  ghost predicate KeysApart(ports: seq<Port>) {
    forall p, q | p in ports && q in ports :: PortKey(p) == PortKey(q) ==> p == q
  }

  function PortSet(ports: seq<Port>): set<Port> { set p | p in ports }

  // ---------------------------------------------------------------- ports

  lemma {:induction false} DedupBag(ports: seq<Port>)
    requires KeysApart(ports)
    ensures multiset(Dedup(ports)) == multiset(PortSet(ports))
  {
    hide PortKey;
    if ports != [] {
      var init, last := ports[..|ports| - 1], ports[|ports| - 1];
      assert ports == init + [last];
      DedupBag(init);
      if last in init {
        assert PortSet(ports) == PortSet(init);
      } else {
        assert PortSet(ports) == PortSet(init) + {last};
      }
    }
  }

  lemma MergePortsBag(a: seq<Port>, b: seq<Port>)
    requires KeysApart(a + b) && a != [] && b != []
    ensures MergePorts(a, b) != [] && multiset(MergePorts(a, b)) == multiset(PortSet(a) + PortSet(b))
  {
    hide PortKey, Dedup;
    DedupBag(a + b);
    assert PortSet(a + b) == PortSet(a) + PortSet(b);
    assert a[0] in multiset(Dedup(a + b));
  }

  // ---------------------------------------------------------------- the ports of a group

  /** How many rules have this combine key. */
  ghost function GroupSize(eps: seq<EndpointInfo>, k: string): nat { Bag(CombineKey, eps)[k] }

  ghost function GroupPorts(eps: seq<EndpointInfo>, k: string): set<Port> {
    set e, p | e in eps && CombineKey(e) == k && p in e.ports :: p
  }

  ghost predicate AllPortsIn(eps: seq<EndpointInfo>, k: string) {
    exists e :: e in eps && CombineKey(e) == k && e.ports == []
  }

  /** The ports of the merged rule of a group: those of a single rule as they stand, nothing when
      a rule is for all ports, and otherwise every port of the group once. */
  ghost predicate GroupHas(eps: seq<EndpointInfo>, k: string, ports: seq<Port>) {
    && GroupSize(eps, k) >= 1
    && (GroupSize(eps, k) == 1 ==> exists e :: e in eps && CombineKey(e) == k && ports == e.ports)
    && (GroupSize(eps, k) > 1 && AllPortsIn(eps, k) ==> ports == [])
    && (GroupSize(eps, k) > 1 && !AllPortsIn(eps, k) ==> multiset(ports) == multiset(GroupPorts(eps, k)))
  }

  lemma GroupSnoc(init: seq<EndpointInfo>, last: EndpointInfo, k: string)
    ensures GroupSize(init + [last], k) == GroupSize(init, k) + if CombineKey(last) == k then 1 else 0
    ensures GroupPorts(init + [last], k) == GroupPorts(init, k) + if CombineKey(last) == k then PortSet(last.ports) else {}
    ensures AllPortsIn(init + [last], k) <==> AllPortsIn(init, k) || (CombineKey(last) == k && last.ports == [])
  {
    BagSnoc(CombineKey, init, last);
    hide CombineKey, Bag;
    assert last in init + [last];
    assert forall e :: e in init + [last] <==> e in init || e == last;
  }

  lemma GroupKept(init: seq<EndpointInfo>, last: EndpointInfo, k: string, ports: seq<Port>)
    requires CombineKey(last) != k && GroupHas(init, k, ports)
    ensures GroupHas(init + [last], k, ports)
  {
    GroupSnoc(init, last, k);
    hide CombineKey, GroupSize, GroupPorts, AllPortsIn;
    assert forall e :: e in init ==> e in init + [last];
  }

  lemma GroupStarts(init: seq<EndpointInfo>, last: EndpointInfo, k: string)
    requires CombineKey(last) == k && GroupSize(init, k) == 0
    ensures GroupHas(init + [last], k, last.ports)
  {
    GroupSnoc(init, last, k);
    hide CombineKey, GroupSize, GroupPorts, AllPortsIn;
    assert last in init + [last];
  }

  /** The set of the merged ports so far, whether of one rule or of several. */
  lemma GroupSet(eps: seq<EndpointInfo>, k: string, ports: seq<Port>)
    requires GroupHas(eps, k, ports)
    ensures AllPortsIn(eps, k) <==> ports == []
    ensures !AllPortsIn(eps, k) ==> PortSet(ports) == GroupPorts(eps, k)
  {
    hide CombineKey, GroupSize;
    if GroupSize(eps, k) == 1 {
      var e :| e in eps && CombineKey(e) == k && ports == e.ports;
      forall x | x in eps && CombineKey(x) == k ensures x == e {
        SingleMember(eps, k, x, e);
      }
      assert GroupPorts(eps, k) == PortSet(ports);
    } else if !AllPortsIn(eps, k) {
      GroupNotEmpty(eps, k);
      forall p ensures p in PortSet(ports) <==> p in GroupPorts(eps, k) {
        assert p in ports <==> p in multiset(ports);
        assert p in multiset(GroupPorts(eps, k)) <==> p in GroupPorts(eps, k);
      }
    }
  }

  lemma GroupNotEmpty(eps: seq<EndpointInfo>, k: string)
    requires GroupSize(eps, k) >= 1 && !AllPortsIn(eps, k)
    ensures GroupPorts(eps, k) != {}
  {
    BagMembers(CombineKey, eps, k);
    hide CombineKey, Bag;
    var e :| e in eps && CombineKey(e) == k;
    assert e.ports != [] && e.ports[0] in e.ports;
    assert e.ports[0] in GroupPorts(eps, k);
  }

  lemma SingleMember(eps: seq<EndpointInfo>, k: string, x: EndpointInfo, y: EndpointInfo)
    requires GroupSize(eps, k) == 1 && x in eps && y in eps && CombineKey(x) == k == CombineKey(y)
    ensures x == y
  {
    hide CombineKey, Bag;
    var i :| 0 <= i < |eps| && eps[i] == x;
    var j :| 0 <= j < |eps| && eps[j] == y;
    BagPosition(CombineKey, eps, i, j);
  }

  lemma GroupGrows(init: seq<EndpointInfo>, last: EndpointInfo, k: string, ports: seq<Port>)
    requires CombineKey(last) == k && GroupHas(init, k, ports) && PortsApart(init + [last])
    ensures GroupHas(init + [last], k, MergePorts(ports, last.ports))
  {
    GroupSet(init, k, ports);
    GroupSnoc(init, last, k);
    hide CombineKey, GroupSize, AllPortsIn, MergePorts, GroupPorts;
    if ports == [] || last.ports == [] {
      MergeAbsorbs(ports, last.ports);
    } else {
      GroupApart(init, last, k, ports);
      MergePortsBag(ports, last.ports);
    }
  }

  lemma MergeAbsorbs(a: seq<Port>, b: seq<Port>)
    requires a == [] || b == []
    ensures MergePorts(a, b) == []
  {
  }

  lemma GroupApart(init: seq<EndpointInfo>, last: EndpointInfo, k: string, ports: seq<Port>)
    requires PortsApart(init + [last]) && PortSet(ports) == GroupPorts(init, k)
    ensures KeysApart(ports + last.ports)
  {
    hide CombineKey, PortKey;
    forall p | p in ports + last.ports ensures exists e :: e in init + [last] && p in e.ports {
      if p in last.ports {
        assert last in init + [last];
      } else {
        assert p in PortSet(ports);
        var e :| e in init && CombineKey(e) == k && p in e.ports;
        assert e in init + [last];
      }
    }
  }

  lemma ApartPrefix(init: seq<EndpointInfo>, last: EndpointInfo)
    requires PortsApart(init + [last])
    ensures PortsApart(init)
  {
    hide PortKey;
    assert forall e :: e in init ==> e in init + [last];
  }

  lemma {:induction false} CombineMapGroup(eps: seq<EndpointInfo>, k: string)
    requires PortsApart(eps)
    ensures k in CombineMap(eps) <==> GroupSize(eps, k) >= 1
    ensures k in CombineMap(eps) ==> GroupHas(eps, k, CombineMap(eps)[k].ports)
  {
    hide CombineKey, GroupSize, GroupHas, MergePorts, PortsApart;
    if eps == [] {
      BagEmpty(CombineKey);
      GroupSizeDef(eps, k);
    } else {
      var init, last := eps[..|eps| - 1], eps[|eps| - 1];
      assert eps == init + [last];
      ApartPrefix(init, last);
      CombineMapGroup(init, k);
      GroupSnoc(init, last, k);
      if CombineKey(last) != k {
        if k in CombineMap(init) {
          GroupKept(init, last, k, CombineMap(init)[k].ports);
        }
      } else if k in CombineMap(init) {
        GroupGrows(init, last, k, CombineMap(init)[k].ports);
      } else {
        GroupStarts(init, last, k);
      }
    }
  }

  lemma GroupSizeDef(eps: seq<EndpointInfo>, k: string)
    ensures GroupSize(eps, k) == Bag(CombineKey, eps)[k]
  {
    hide CombineKey, Bag;
  }

  // ---------------------------------------------------------------- permuted lists

  lemma PermutedMembers(a: seq<EndpointInfo>, b: seq<EndpointInfo>)
    requires multiset(a) == multiset(b)
    ensures forall e :: e in a <==> e in b
  {
    forall e ensures e in a <==> e in b {
      assert e in a <==> e in multiset(a);
      assert e in b <==> e in multiset(b);
    }
  }

  lemma PermutedGroup(a: seq<EndpointInfo>, b: seq<EndpointInfo>, k: string, x: seq<Port>, y: seq<Port>)
    requires multiset(a) == multiset(b) && GroupHas(a, k, x) && GroupHas(b, k, y)
    ensures multiset(x) == multiset(y)
  {
    PermutedMembers(a, b);
    BagPermute(CombineKey, a, b);
    hide CombineKey, Bag;
    if GroupSize(a, k) == 1 {
      var e :| e in a && CombineKey(e) == k && x == e.ports;
      var f :| f in b && CombineKey(f) == k && y == f.ports;
      SingleMember(a, k, e, f);
    } else {
      assert GroupPorts(a, k) == GroupPorts(b, k);
      assert AllPortsIn(a, k) <==> AllPortsIn(b, k);
    }
  }

  lemma PermutedApart(a: seq<EndpointInfo>, b: seq<EndpointInfo>)
    requires multiset(a) == multiset(b) && PortsApart(a) && ValidRules(a)
    ensures PortsApart(b) && ValidRules(b)
  {
    hide PortKey, ValidRule;
    PermutedMembers(a, b);
  }

  /** The merged rules of a key are equal up to the order of ports and exceptions. */
  lemma MergedCanon(a: seq<EndpointInfo>, b: seq<EndpointInfo>, k: string)
    requires ValidRules(a) && PortsApart(a) && multiset(a) == multiset(b)
    ensures k in CombineMap(a) <==> k in CombineMap(b)
    ensures k in CombineMap(a) ==> CanonOf(CombineMap(a)[k]) == CanonOf(CombineMap(b)[k])
  {
    hide *;
    PermutedApart(a, b);
    CombineMapGroup(a, k);
    CombineMapGroup(b, k);
    BagPermute(CombineKey, a, b);
    GroupSizeDef(a, k);
    GroupSizeDef(b, k);
    if k in CombineMap(a) {
      var n, f := Network((x, y) => false, (x, y) => false), Flow(Address(""), "", 0);
      CombineMapMeaning(a, n, f, k);
      CombineMapMeaning(b, n, f, k);
      PermutedGroup(a, b, k, CombineMap(a)[k].ports, CombineMap(b)[k].ports);
      CombineKeyIdentity(CombineMap(a)[k], CombineMap(b)[k]);
      CanonDef(CombineMap(a)[k], CombineMap(b)[k]);
    }
  }

  lemma CanonDef(x: EndpointInfo, y: EndpointInfo)
    requires x.domainName == y.domainName && x.cidr == y.cidr && multiset(x.except) == multiset(y.except)
    requires multiset(x.ports) == multiset(y.ports)
    ensures CanonOf(x) == CanonOf(y)
  {
  }

  ghost function CanonAt(m: map<string, EndpointInfo>): string -> Canon {
    (k: string) => if k in m then CanonOf(m[k]) else Canon("", "", multiset{}, multiset{})
  }

  lemma CombinedOrder(eps: seq<EndpointInfo>, r: seq<EndpointInfo>) returns (order: seq<string>)
    requires CombinedFrom(eps, r)
    ensures Lists(order, CombineMap(eps).Keys) && Bag(CanonOf, r) == Bag(CanonAt(CombineMap(eps)), order)
  {
    hide CombineMap, CanonOf;
    var m := CombineMap(eps);
    order :| Lists(order, m.Keys) && (forall k | k in order :: k in m) && r == Lookup(m, order);
    assert Map(CanonOf, r) == Map(CanonAt(m), order);
  }

  lemma SameCanonsAt(m: map<string, EndpointInfo>, n: map<string, EndpointInfo>, order: seq<string>)
    requires forall k :: (k in m <==> k in n) && (k in m ==> CanonOf(m[k]) == CanonOf(n[k]))
    ensures m.Keys == n.Keys && Bag(CanonAt(m), order) == Bag(CanonAt(n), order)
  {
    hide CanonOf;
    assert Map(CanonAt(m), order) == Map(CanonAt(n), order);
  }

  /** Merging permuted lists gives the same rules, up to order. */
  lemma MergeIgnoresOrder(a: seq<EndpointInfo>, b: seq<EndpointInfo>, merged: seq<EndpointInfo>, other: seq<EndpointInfo>)
    requires ValidRules(a) && PortsApart(a) && multiset(a) == multiset(b)
    requires CombinedFrom(a, merged) && CombinedFrom(b, other)
    ensures Bag(CanonOf, merged) == Bag(CanonOf, other)
  {
    hide *;
    forall k ensures k in CombineMap(a) <==> k in CombineMap(b)
      ensures k in CombineMap(a) ==> CanonOf(CombineMap(a)[k]) == CanonOf(CombineMap(b)[k])
    {
      MergedCanon(a, b, k);
    }
    var x := CombinedOrder(a, merged);
    var y := CombinedOrder(b, other);
    SameCanonsAt(CombineMap(a), CombineMap(b), x);
    SameOrders(x, y, CombineMap(a).Keys);
    BagPermute(CanonAt(CombineMap(b)), x, y);
  }

  lemma SameOrders(x: seq<string>, y: seq<string>, keys: set<string>)
    requires Lists(x, keys) && Lists(y, keys)
    ensures multiset(x) == multiset(y)
  {
  }
}
