/** Merging the rules of one object that describe the same network identity. */
module Combine {
  import opened Basics
  import opened PolicyInfo
  import opened Framing
  import Sorting

  // ---------------------------------------------------------------- deduplicatePorts

  function PortTriple(p: Port): (string, int, int) {
    (match p.protocol case None => "TCP" case Some(x) => x,
     match p.port case None => 0 case Some(v) => v,
     match p.endPort case None => 0 case Some(v) => v)
  }

  function PortKey(p: Port): string {
    var (protocol, port, endPort) := PortTriple(p);
    protocol + ":" + Itoa(port) + ":" + Itoa(endPort)
  }

  function Dedup(ports: seq<Port>): seq<Port> {
    if ports == [] then [] else
      var init, last := ports[..|ports| - 1], ports[|ports| - 1];
      if exists p | p in init :: PortKey(p) == PortKey(last) then Dedup(init) else Dedup(init) + [last]
  }

  ghost predicate HasKey(ports: seq<Port>, k: string) {
    exists p :: p in ports && PortKey(p) == k
  }

  lemma DedupStart(ports: seq<Port>)
    ensures Dedup(ports[..0]) == [] && forall k :: !HasKey(ports[..0], k)
  {
  }

  lemma DedupNext(ports: seq<Port>, i: nat)
    requires i < |ports|
    ensures Dedup(ports[..i + 1]) ==
            Dedup(ports[..i]) + if HasKey(ports[..i], PortKey(ports[i])) then [] else [ports[i]]
    ensures forall k :: HasKey(ports[..i + 1], k) <==> HasKey(ports[..i], k) || k == PortKey(ports[i])
  {
    hide PortKey;
    var init, last := ports[..i], ports[i];
    assert ports[..i + 1] == init + [last] && ports[..i + 1][..i] == init;
    forall k ensures HasKey(init + [last], k) <==> HasKey(init, k) || k == PortKey(last) {
      assert last in init + [last];
      if p :| p in init && PortKey(p) == k {
        assert p in init + [last];
      }
    }
  }

  method DeduplicatePorts(ports: seq<Port>) returns (result: seq<Port>)
    ensures result == Dedup(ports)
  {
    hide PortKey, Dedup, HasKey;
    var seen: set<string> := {};
    result := [];
    DedupStart(ports);
    for i := 0 to |ports|
      invariant forall k :: k in seen <==> HasKey(ports[..i], k)
      invariant result == Dedup(ports[..i])
    {
      DedupNext(ports, i);
      var key := PortKey(ports[i]);
      if key !in seen {
        seen := seen + {key};
        result := result + [ports[i]];
      }
    }
    assert ports[..|ports|] == ports;
  }

  lemma PortKeyTriple(p: Port, q: Port)
    requires ValidPort(p) && ValidPort(q)
    ensures PortKey(p) == PortKey(q) <==> PortTriple(p) == PortTriple(q)
  {
    var (a, b, c) := PortTriple(p);
    var (x, y, z) := PortTriple(q);
    assert PortKey(p) + ":" == Frame(':', [a, Itoa(b), Itoa(c)]) by { FrameThree(':', a, Itoa(b), Itoa(c)); }
    assert PortKey(q) + ":" == Frame(':', [x, Itoa(y), Itoa(z)]) by { FrameThree(':', x, Itoa(y), Itoa(z)); }
    assert ':' !in "TCP";
    hide Frame, Itoa;
    if PortKey(p) == PortKey(q) {
      FrameInjective(':', [a, Itoa(b), Itoa(c)], [x, Itoa(y), Itoa(z)]);
      assert [a, Itoa(b), Itoa(c)][0] == x && [a, Itoa(b), Itoa(c)][1] == Itoa(y) && [a, Itoa(b), Itoa(c)][2] == Itoa(z);
      ItoaInjective(b, y);
      ItoaInjective(c, z);
    }
  }

  /** Two ports have the same key exactly when they differ at most in spelling TCP out. */
  lemma PortKeyExactly(p: Port, q: Port)
    requires ValidPort(p) && ValidPort(q)
    ensures PortKey(p) == PortKey(q) <==>
            && p.port == q.port && p.endPort == q.endPort
            && (p.protocol == q.protocol || (p.protocol.None? && q.protocol == Some("TCP"))
                || (p.protocol == Some("TCP") && q.protocol.None?))
  {
    PortKeyTriple(p, q);
    hide PortKey;
  }

  lemma PortKeyMeaning(p: Port, q: Port, f: Flow)
    requires ValidPort(p) && ValidPort(q)
    requires PortKey(p) == PortKey(q)
    ensures PortAdmits(p, f) == PortAdmits(q, f)
  {
    PortKeyExactly(p, q);
    hide PortKey;
  }

  ghost predicate SomePortAdmits(ports: seq<Port>, f: Flow) {
    exists p :: p in ports && PortAdmits(p, f)
  }

  lemma {:induction false} DedupMeaning(ports: seq<Port>, f: Flow)
    requires ValidPorts(ports)
    ensures SomePortAdmits(Dedup(ports), f) <==> SomePortAdmits(ports, f)
    ensures forall p | p in Dedup(ports) :: p in ports
    ensures Dedup(ports) == [] <==> ports == []
  {
    if ports != [] {
      var init, last := ports[..|ports| - 1], ports[|ports| - 1];
      assert ports == init + [last];
      DedupMeaning(init, f);
      if p :| p in init && PortKey(p) == PortKey(last) {
        PortKeyMeaning(p, last, f);
      }
    }
  }

  function MergePorts(existing: seq<Port>, added: seq<Port>): seq<Port> {
    if added == [] || existing == [] then [] else Dedup(existing + added)
  }

  lemma MergePortsMeaning(a: seq<Port>, b: seq<Port>, f: Flow)
    requires ValidPorts(a) && ValidPorts(b)
    ensures PortsAdmit(MergePorts(a, b), f) <==> PortsAdmit(a, f) || PortsAdmit(b, f)
    ensures ValidPorts(MergePorts(a, b))
    ensures MergePorts(a, b) == [] <==> a == [] || b == []
  {
    if a != [] && b != [] {
      DedupMeaning(a + b, f);
      assert SomePortAdmits(a + b, f) <==> SomePortAdmits(a, f) || SomePortAdmits(b, f) by {
        if p :| p in a + b && PortAdmits(p, f) {
          assert p in a || p in b;
        }
        if SomePortAdmits(a, f) {
          var p :| p in a && PortAdmits(p, f);
          assert p in a + b;
        }
        if SomePortAdmits(b, f) {
          var p :| p in b && PortAdmits(p, f);
          assert p in a + b;
        }
      }
    }
  }

  // ---------------------------------------------------------------- combineRulesEndpoints

  /** getCombineKey: address or domain name with the sorted exceptions, without the ports. */
  function CombineKey(e: EndpointInfo): string {
    Frame('|', (if e.domainName != "" then ["fqdn", e.domainName] else ["cidr", e.cidr]) + Sorting.Sort(e.except))
  }

  function CombineMap(eps: seq<EndpointInfo>): (m: map<string, EndpointInfo>) {
    if eps == [] then map[] else
      var m, e := CombineMap(eps[..|eps| - 1]), eps[|eps| - 1];
      var k := CombineKey(e);
      if k in m then m[k := m[k].(ports := MergePorts(m[k].ports, e.ports))] else m[k := e]
  }

  /** The values of the map, in the order in which its keys are visited. */
  ghost predicate ListsValues<K(!new), V>(vs: seq<V>, m: map<K, V>) {
    exists order :: Lists(order, m.Keys) && (forall k | k in order :: k in m) && vs == Lookup(m, order)
  }

  /** `r` is a possible result of merging `eps`: the order of the result is the map's. */
  ghost predicate CombinedFrom(eps: seq<EndpointInfo>, r: seq<EndpointInfo>) {
    ListsValues(r, CombineMap(eps))
  }

  /** maps.Values */
  method Values<K(==, !new), V>(m: map<K, V>) returns (vs: seq<V>)
    ensures ListsValues(vs, m)
  {
    var order := Enumerate(m.Keys);
    ListsMembers(order, m.Keys);
    vs := Lookup(m, order);
  }

  method CombineRulesEndpoints(eps: seq<EndpointInfo>) returns (r: seq<EndpointInfo>)
    ensures CombinedFrom(eps, r)
  {
    var combined: map<string, EndpointInfo> := map[];
    assert eps[..0] == [];
    for i := 0 to |eps|
      invariant combined == CombineMap(eps[..i])
    {
      assert eps[..i + 1][..i] == eps[..i];
      var key := CombineKey(eps[i]);
      if key in combined {
        var existing := combined[key];
        if |eps[i].ports| == 0 || |existing.ports| == 0 {
          // all ports absorb any others
          existing := existing.(ports := []);
        } else {
          var ports := DeduplicatePorts(existing.ports + eps[i].ports);
          existing := existing.(ports := ports);
        }
        combined := combined[key := existing];
      } else {
        combined := combined[key := eps[i]];
      }
    }
    assert eps[..|eps|] == eps;
    r := Values(combined);
  }

  // ---------------------------------------------------------------- what merging means

  /** The addresses or names a rule is about, ports aside. */
  ghost predicate Covers(n: Network, e: EndpointInfo, t: Target) {
    AddressMatches(n, e.cidr, e.domainName, t) && !Excepted(n, e, t)
  }

  lemma CombineKeyIdentity(a: EndpointInfo, b: EndpointInfo)
    requires ValidRule(a) && ValidRule(b)
    requires CombineKey(a) == CombineKey(b)
    ensures a.domainName == b.domainName && a.cidr == b.cidr && multiset(a.except) == multiset(b.except)
  {
    var head := (e: EndpointInfo) => if e.domainName != "" then ["fqdn", e.domainName] else ["cidr", e.cidr];
    var s, t := head(a) + Sorting.Sort(a.except), head(b) + Sorting.Sort(b.except);
    Sorting.SortMembers(a.except);
    Sorting.SortMembers(b.except);
    FrameInjective('|', s, t);
    assert s[0] == t[0] && s[1] == t[1];
    assert s[0][0] == t[0][0];
    assert s[2..] == Sorting.Sort(a.except) && t[2..] == Sorting.Sort(b.except);
    Sorting.SortCanonical(a.except, b.except);
  }

  lemma CombineKeyFrom(a: EndpointInfo, b: EndpointInfo)
    requires a.domainName == b.domainName && a.cidr == b.cidr && Sorting.Sort(a.except) == Sorting.Sort(b.except)
    ensures CombineKey(a) == CombineKey(b)
  {
    hide Frame, Sorting.Sort;
  }

  lemma SameIdentityCovers(a: EndpointInfo, b: EndpointInfo, n: Network, t: Target)
    requires a.domainName == b.domainName && a.cidr == b.cidr && multiset(a.except) == multiset(b.except)
    ensures Covers(n, a, t) == Covers(n, b, t)
  {
    assert forall x :: x in a.except <==> x in multiset(a.except);
    assert forall x :: x in b.except <==> x in multiset(b.except);
  }

  /** What an entry of the merged map stands for: the merged rules of its key, together. */
  ghost predicate Represents(n: Network, eps: seq<EndpointInfo>, k: string, f: Flow) {
    exists e :: e in eps && CombineKey(e) == k && Admits(n, e, f)
  }

  lemma CombineStepMeaning(prior: EndpointInfo, e: EndpointInfo, n: Network, f: Flow)
    requires ValidRule(prior) && ValidRule(e) && CombineKey(prior) == CombineKey(e)
    ensures var merged := prior.(ports := MergePorts(prior.ports, e.ports));
            && ValidRule(merged) && CombineKey(merged) == CombineKey(e)
            && (Admits(n, merged, f) <==> Admits(n, prior, f) || Admits(n, e, f))
            && (merged.ports == [] <==> prior.ports == [] || e.ports == [])
  {
    CombineKeyIdentity(prior, e);
    SameIdentityCovers(prior, e, n, f.target);
    SameIdentityCovers(prior, prior.(ports := MergePorts(prior.ports, e.ports)), n, f.target);
    MergePortsMeaning(prior.ports, e.ports, f);
  }

  lemma {:induction false} CombineMapKeys(eps: seq<EndpointInfo>)
    ensures forall k :: k in CombineMap(eps) <==> exists e :: e in eps && CombineKey(e) == k
  {
    if eps != [] {
      var init, last := eps[..|eps| - 1], eps[|eps| - 1];
      CombineMapKeys(init);
      assert eps == init + [last];
      assert last in eps;
    }
  }

  lemma {:induction false} CombineMapMeaning(eps: seq<EndpointInfo>, n: Network, f: Flow, k: string)
    requires ValidRules(eps) && k in CombineMap(eps)
    ensures var e := CombineMap(eps)[k];
            && ValidRule(e) && CombineKey(e) == k
            && (Admits(n, e, f) <==> Represents(n, eps, k, f))
            && (e.ports == [] <==> exists x :: x in eps && CombineKey(x) == k && x.ports == [])
  {
    var init, last := eps[..|eps| - 1], eps[|eps| - 1];
    var m := CombineMap(init);
    assert eps == init + [last];
    assert last in eps;
    if k in m {
      CombineMapMeaning(init, n, f, k);
      if k == CombineKey(last) {
        CombineStepMeaning(m[k], last, n, f);
      }
    } else {
      CombineMapKeys(init);
    }
    assert Represents(n, eps, k, f) <==>
           Represents(n, init, k, f) || (CombineKey(last) == k && Admits(n, last, f));
  }

  /** The keys in the order in which the merged rules are listed. */
  lemma ListingOrder(eps: seq<EndpointInfo>, r: seq<EndpointInfo>) returns (order: seq<string>)
    requires CombinedFrom(eps, r)
    ensures |order| == |r| == |CombineMap(eps)|
    ensures forall i :: 0 <= i < |r| ==> order[i] in CombineMap(eps) && r[i] == CombineMap(eps)[order[i]]
    ensures forall i, j :: 0 <= i < j < |order| ==> order[i] != order[j]
    ensures forall k | k in CombineMap(eps) :: CombineMap(eps)[k] in r
  {
    var m := CombineMap(eps);
    order :| Lists(order, m.Keys) && (forall k | k in order :: k in m) && r == Lookup(m, order);
    ListsMembers(order, m.Keys);
    forall k | k in m ensures m[k] in r {
      assert k in order;
      var i :| 0 <= i < |order| && order[i] == k;
      assert r[i] in r;
    }
  }

  /** Merging admits exactly the traffic of the rules it merged. */
  lemma CombinePreservesMeaning(eps: seq<EndpointInfo>, r: seq<EndpointInfo>, n: Network, f: Flow)
    requires ValidRules(eps) && CombinedFrom(eps, r)
    ensures AdmittedBy(n, r, f) <==> AdmittedBy(n, eps, f)
  {
    hide CombineMap, CombinedFrom, CombineKey, Admits;
    var order := ListingOrder(eps, r);
    if e :| e in r && Admits(n, e, f) {
      var i :| 0 <= i < |r| && r[i] == e;
      CombineMapMeaning(eps, n, f, order[i]);
    }
    if e :| e in eps && Admits(n, e, f) {
      CombineMapKeys(eps);
      CombineMapMeaning(eps, n, f, CombineKey(e));
    }
  }

  /** Merged rules are well-formed, have distinct identities, are no more than before, and an
      all-ports rule absorbs its group. */
  lemma CombineShape(eps: seq<EndpointInfo>, r: seq<EndpointInfo>)
    requires ValidRules(eps) && CombinedFrom(eps, r)
    ensures ValidRules(r)
    ensures DistinctCombineKeys(r)
    ensures |r| <= |eps|
    ensures eps != [] ==> r != []
    ensures forall e | e in r :: (e.ports == [] <==> exists x :: x in eps && CombineKey(x) == CombineKey(e) && x.ports == [])
  {
    hide CombineMap, CombinedFrom, CombineKey, ValidRule;
    var order := ListingOrder(eps, r);
    var n, f := Network((a, b) => false, (a, b) => false), Flow(Address(""), "", 0);
    forall i | 0 <= i < |r|
      ensures ValidRule(r[i]) && CombineKey(r[i]) == order[i]
      ensures r[i].ports == [] <==> exists x :: x in eps && CombineKey(x) == CombineKey(r[i]) && x.ports == []
    {
      CombineMapMeaning(eps, n, f, order[i]);
    }
    CombineMapSize(eps);
    CombineMapKeys(eps);
    assert eps != [] ==> eps[0] in eps && CombineKey(eps[0]) in CombineMap(eps);
  }

  lemma {:induction false} CombineMapSize(eps: seq<EndpointInfo>)
    ensures |CombineMap(eps)| <= |eps|
  {
    if eps != [] {
      CombineMapSize(eps[..|eps| - 1]);
    }
  }

  /** No two rules of the list would be merged. */
  ghost predicate DistinctCombineKeys(eps: seq<EndpointInfo>) {
    forall i, j :: 0 <= i < j < |eps| ==> CombineKey(eps[i]) != CombineKey(eps[j])
  }

  lemma {:induction false} CombineMapDistinct(eps: seq<EndpointInfo>, e: EndpointInfo)
    requires DistinctCombineKeys(eps) && e in eps
    ensures CombineKey(e) in CombineMap(eps) && CombineMap(eps)[CombineKey(e)] == e
  {
    hide CombineKey;
    var init, last := eps[..|eps| - 1], eps[|eps| - 1];
    assert eps == init + [last];
    CombineMapKeys(init);
    forall x | x in init ensures CombineKey(x) != CombineKey(last) {
      var i :| 0 <= i < |init| && init[i] == x;
      assert eps[i] == x && eps[|init|] == last;
    }
    if e in init {
      CombineMapDistinct(init, e);
    }
  }

  lemma DistinctCount(eps: seq<EndpointInfo>, e: EndpointInfo)
    requires DistinctCombineKeys(eps)
    ensures multiset(eps)[e] == if e in eps then 1 else 0
  {
    if e in eps {
      var i :| 0 <= i < |eps| && eps[i] == e;
      assert eps == eps[..i] + [e] + eps[i + 1..];
      assert e !in multiset(eps[..i]);
      assert e !in multiset(eps[i + 1..]);
    }
  }

  /** Without rules to merge, merging only reorders. */
  lemma CombineOnlyReorders(eps: seq<EndpointInfo>, r: seq<EndpointInfo>)
    requires ValidRules(eps) && DistinctCombineKeys(eps) && CombinedFrom(eps, r)
    ensures multiset(r) == multiset(eps)
  {
    hide CombineMap, CombinedFrom, CombineKey, ValidRule, DistinctCombineKeys;
    var order := ListingOrder(eps, r);
    CombineShape(eps, r);
    CombineMapKeys(eps);
    forall e ensures multiset(r)[e] == multiset(eps)[e] {
      DistinctCount(eps, e);
      DistinctCount(r, e);
      if e in r {
        var i :| 0 <= i < |r| && r[i] == e;
        var x :| x in eps && CombineKey(x) == order[i];
        CombineMapDistinct(eps, x);
      }
      if e in eps {
        CombineMapDistinct(eps, e);
      }
    }
  }
}
