/** Merging the rules of a ClusterPolicyEndpoint, and exactly when it preserves their meaning. */
module ClusterCombine {
  import opened Basics
  import opened PolicyInfo
  import opened RuleKeys
  import opened Combine

  /** The text under which rules are merged; rules without address and domain name have none. */
  function ClusterKey(e: ClusterEndpointInfo): Option<string> {
    if e.cidr != "" then Some(e.cidr + ":" + e.action)
    else if e.domainName != "" then Some(e.domainName + ":" + e.action)
    else None
  }

  function ClusterMap(eps: seq<ClusterEndpointInfo>): map<string, ClusterEndpointInfo> {
    if eps == [] then map[] else
      var m, e := ClusterMap(eps[..|eps| - 1]), eps[|eps| - 1];
      var key := ClusterKey(e);
      if key.None? then m
      else if key.value in m then m[key.value := m[key.value].(ports := Dedup(m[key.value].ports + e.ports))]
      else m[key.value := e]
  }

  ghost predicate ClusterCombinedFrom(eps: seq<ClusterEndpointInfo>, r: seq<ClusterEndpointInfo>) {
    ListsValues(r, ClusterMap(eps))
  }

  method CombineClusterRulesEndpoints(eps: seq<ClusterEndpointInfo>) returns (r: seq<ClusterEndpointInfo>)
    ensures ClusterCombinedFrom(eps, r)
  {
    var combined: map<string, ClusterEndpointInfo> := map[];
    assert eps[..0] == [];
    for i := 0 to |eps|
      invariant combined == ClusterMap(eps[..i])
    {
      assert eps[..i + 1][..i] == eps[..i];
      var key := ClusterKey(eps[i]);
      if key.Some? {
        if key.value in combined {
          var existing := combined[key.value];
          var ports := DeduplicatePorts(existing.ports + eps[i].ports);
          combined := combined[key.value := existing.(ports := ports)];
        } else {
          combined := combined[key.value := eps[i]];
        }
      }
    }
    assert eps[..|eps|] == eps;
    r := Values(combined);
  }

  // ---------------------------------------------------------------- meaning

  ghost predicate ClusterAdmits(n: Network, e: ClusterEndpointInfo, f: Flow) {
    AddressMatches(n, e.cidr, e.domainName, f.target) && PortsAdmit(e.ports, f)
  }

  /** Some rule applies the action to the flow. */
  ghost predicate Applies(n: Network, rules: seq<ClusterEndpointInfo>, action: string, f: Flow) {
    exists e :: e in rules && e.action == action && ClusterAdmits(n, e, f)
  }

  /** No domain name is spelled like an address of the list. */
  predicate AddressesApart(eps: seq<ClusterEndpointInfo>) {
    forall a, b | a in eps && b in eps :: a.cidr != "" && b.domainName != "" ==> a.cidr != b.domainName
  }

  lemma LastColon(x: string, a: string, y: string, b: string)
    requires x + ":" + a == y + ":" + b && ':' !in a && ':' !in b
    ensures x == y && a == b
  {
    var s := x + ":" + a;
    var t := y + ":" + b;
    assert s[|x|] == ':' && t[|y|] == ':';
    assert forall i :: |x| < i < |s| ==> s[i] == a[i - |x| - 1];
    assert forall i :: |y| < i < |t| ==> t[i] == b[i - |y| - 1];
    assert a == s[|x| + 1..] && b == t[|y| + 1..];
    assert x == s[..|x|] && y == t[..|y|];
  }

  /** Rules under the same key are about the same addresses and have the same action. */
  ghost predicate SameIdentity(a: ClusterEndpointInfo, b: ClusterEndpointInfo) {
    a.cidr == b.cidr && a.domainName == b.domainName && a.action == b.action
  }

  lemma ClusterKeyIdentity(eps: seq<ClusterEndpointInfo>, a: ClusterEndpointInfo, b: ClusterEndpointInfo)
    requires ValidClusterRules(eps) && AddressesApart(eps) && a in eps && b in eps
    ensures ClusterKey(a) == ClusterKey(b) <==> SameIdentity(a, b)
  {
    var name := (e: ClusterEndpointInfo) => if e.cidr != "" then e.cidr else e.domainName;
    assert ValidClusterRule(a) && ValidClusterRule(b);
    assert ClusterKey(a) == Some(name(a) + ":" + a.action) && ClusterKey(b) == Some(name(b) + ":" + b.action);
    if ClusterKey(a) == ClusterKey(b) {
      LastColon(name(a), a.action, name(b), b.action);
    }
  }

  ghost predicate HasClusterKey(eps: seq<ClusterEndpointInfo>, k: string) {
    exists e :: e in eps && ClusterKey(e) == Some(k)
  }

  lemma {:induction false} ClusterMapKeys(eps: seq<ClusterEndpointInfo>)
    ensures forall k :: k in ClusterMap(eps) <==> HasClusterKey(eps, k)
    ensures |ClusterMap(eps)| <= |eps|
  {
    hide ClusterKey;
    if eps != [] {
      var init, last := eps[..|eps| - 1], eps[|eps| - 1];
      ClusterMapKeys(init);
      assert eps == init + [last];
      forall k ensures HasClusterKey(eps, k) <==> HasClusterKey(init, k) || ClusterKey(last) == Some(k) {
        assert last in eps;
        if e :| e in init && ClusterKey(e) == Some(k) {
          assert e in eps;
        }
      }
    }
  }

  lemma {:induction false} ClusterMapAddressed(eps: seq<ClusterEndpointInfo>, k: string)
    requires k in ClusterMap(eps)
    ensures ClusterMap(eps)[k].cidr != "" || ClusterMap(eps)[k].domainName != ""
  {
    var init, last := eps[..|eps| - 1], eps[|eps| - 1];
    if k in ClusterMap(init) {
      ClusterMapAddressed(init, k);
    }
  }

  /** Rules with neither an address nor a domain name are skipped. */
  lemma NamelessSkipped(eps: seq<ClusterEndpointInfo>, r: seq<ClusterEndpointInfo>, e: ClusterEndpointInfo)
    requires ClusterCombinedFrom(eps, r) && e in r
    ensures e.cidr != "" || e.domainName != ""
  {
    var m := ClusterMap(eps);
    hide ClusterMap;
    var order :| Lists(order, m.Keys) && (forall k | k in order :: k in m) && r == Lookup(m, order);
    var i :| 0 <= i < |r| && r[i] == e;
    ClusterMapAddressed(eps, order[i]);
  }

  /** Some rule of the key's group has a port that admits the flow. */
  ghost predicate GroupPortAdmits(eps: seq<ClusterEndpointInfo>, k: string, f: Flow) {
    exists x :: x in eps && ClusterKey(x) == Some(k) && SomePortAdmits(x.ports, f)
  }

  /** The rules of the group have no ports. */
  ghost predicate GroupWithoutPorts(eps: seq<ClusterEndpointInfo>, k: string) {
    forall x | x in eps && ClusterKey(x) == Some(k) :: x.ports == []
  }

  lemma GroupSnoc(init: seq<ClusterEndpointInfo>, last: ClusterEndpointInfo, k: string, f: Flow)
    ensures GroupPortAdmits(init + [last], k, f) <==>
            GroupPortAdmits(init, k, f) || (ClusterKey(last) == Some(k) && SomePortAdmits(last.ports, f))
    ensures GroupWithoutPorts(init + [last], k) <==>
            GroupWithoutPorts(init, k) && (ClusterKey(last) == Some(k) ==> last.ports == [])
  {
    hide ClusterKey, SomePortAdmits;
    var eps := init + [last];
    assert last in eps;
    if x :| x in init && ClusterKey(x) == Some(k) && SomePortAdmits(x.ports, f) {
      assert x in eps;
    }
    assert forall x | x in init :: x in eps;
  }

  lemma EmptyGroup(eps: seq<ClusterEndpointInfo>, k: string, f: Flow)
    requires !HasClusterKey(eps, k)
    ensures !GroupPortAdmits(eps, k, f) && GroupWithoutPorts(eps, k)
  {
  }

  lemma MergedPorts(a: seq<Port>, b: seq<Port>, f: Flow)
    requires ValidPorts(a) && ValidPorts(b)
    ensures SomePortAdmits(Dedup(a + b), f) <==> SomePortAdmits(a, f) || SomePortAdmits(b, f)
    ensures ValidPorts(Dedup(a + b))
    ensures Dedup(a + b) == [] <==> a == [] && b == []
  {
    DedupMeaning(a + b, f);
    hide Dedup, PortAdmits;
    if p :| p in a && PortAdmits(p, f) {
      assert p in a + b;
    }
    if p :| p in b && PortAdmits(p, f) {
      assert p in a + b;
    }
  }

  /** A merged rule has the ports of its whole group. */
  lemma {:induction false} ClusterMapPorts(eps: seq<ClusterEndpointInfo>, k: string, f: Flow)
    requires ValidClusterRules(eps) && k in ClusterMap(eps)
    ensures var e := ClusterMap(eps)[k];
            && ValidClusterRule(e) && ClusterKey(e) == Some(k)
            && (SomePortAdmits(e.ports, f) <==> GroupPortAdmits(eps, k, f))
            && (e.ports == [] <==> GroupWithoutPorts(eps, k))
  {
    var init, last := eps[..|eps| - 1], eps[|eps| - 1];
    var m := ClusterMap(init);
    assert eps == init + [last];
    assert last in eps && ValidClusterRule(last);
    GroupSnoc(init, last, k, f);
    ClusterMapKeys(init);
    hide Dedup, SomePortAdmits, GroupPortAdmits, GroupWithoutPorts, HasClusterKey;
    if k in m {
      ClusterMapPorts(init, k, f);
      MergedPorts(m[k].ports, last.ports, f);
    } else {
      EmptyGroup(init, k, f);
    }
  }

  /** The identity of a merged rule is that of the rules it stands for. */
  lemma {:induction false} ClusterMapOrigin(eps: seq<ClusterEndpointInfo>, k: string)
    requires k in ClusterMap(eps)
    ensures exists x :: x in eps && ClusterKey(x) == Some(k) && SameIdentity(ClusterMap(eps)[k], x)
  {
    var init, last := eps[..|eps| - 1], eps[|eps| - 1];
    assert eps == init + [last];
    if k in ClusterMap(init) {
      ClusterMapOrigin(init, k);
      var x :| x in init && ClusterKey(x) == Some(k) && SameIdentity(ClusterMap(init)[k], x);
      assert x in eps;
    } else {
      assert last in eps && ClusterKey(last) == Some(k);
    }
  }

  /** The listed rules are the values of the map. */
  lemma ClusterListing(eps: seq<ClusterEndpointInfo>, r: seq<ClusterEndpointInfo>) returns (order: seq<string>)
    requires ClusterCombinedFrom(eps, r)
    ensures |order| == |r| == |ClusterMap(eps)|
    ensures forall i :: 0 <= i < |r| ==> order[i] in ClusterMap(eps) && r[i] == ClusterMap(eps)[order[i]]
    ensures forall i, j :: 0 <= i < j < |order| ==> order[i] != order[j]
    ensures forall k | k in ClusterMap(eps) :: ClusterMap(eps)[k] in r
  {
    var m := ClusterMap(eps);
    hide ClusterMap;
    order :| Lists(order, m.Keys) && (forall k | k in order :: k in m) && r == Lookup(m, order);
    ListsMembers(order, m.Keys);
    forall k | k in m ensures m[k] in r {
      var i :| 0 <= i < |order| && order[i] == k;
      assert r[i] in r;
    }
  }

  /** Merged rules are well-formed, have distinct identities and are no more than before. */
  lemma ClusterCombineShape(eps: seq<ClusterEndpointInfo>, r: seq<ClusterEndpointInfo>)
    requires ValidClusterRules(eps) && ClusterCombinedFrom(eps, r)
    ensures ValidClusterRules(r) && |r| <= |eps|
    ensures forall i, j :: 0 <= i < j < |r| ==> ClusterKey(r[i]) != ClusterKey(r[j])
  {
    hide ClusterMap, ClusterCombinedFrom, ClusterKey, ValidClusterRule;
    var order := ClusterListing(eps, r);
    ClusterMapKeys(eps);
    forall i | 0 <= i < |r| ensures ValidClusterRule(r[i]) && ClusterKey(r[i]) == Some(order[i]) {
      ClusterMapPorts(eps, order[i], Flow(Address(""), "", 0));
    }
  }

  // ---------------------------------------------------------------- exactly when meaning is kept

  /** A rule for all ports shares its key with a rule for some ports. */
  ghost predicate Mixed(eps: seq<ClusterEndpointInfo>) {
    exists a, b :: a in eps && b in eps && SameIdentity(a, b) && a.ports == [] && b.ports != []
  }

  lemma GroupMeaning(eps: seq<ClusterEndpointInfo>, e: ClusterEndpointInfo, k: string, n: Network, f: Flow)
    requires ValidClusterRules(eps) && AddressesApart(eps) && !Mixed(eps)
    requires k in ClusterMap(eps) && e in eps && ClusterKey(e) == Some(k) && ClusterAdmits(n, e, f)
    ensures ClusterAdmits(n, ClusterMap(eps)[k], f) && ClusterMap(eps)[k].action == e.action
  {
    hide ClusterMap, AddressMatches, ValidClusterRule, PortAdmits, ClusterKey;
    ClusterMapPorts(eps, k, f);
    ClusterMapOrigin(eps, k);
    var x :| x in eps && ClusterKey(x) == Some(k) && SameIdentity(ClusterMap(eps)[k], x);
    ClusterKeyIdentity(eps, x, e);
    if e.ports == [] {
      forall y | y in eps && ClusterKey(y) == Some(k) ensures y.ports == [] {
        ClusterKeyIdentity(eps, e, y);
      }
    } else {
      assert SomePortAdmits(e.ports, f);
    }
  }

  lemma MergedMeaning(eps: seq<ClusterEndpointInfo>, k: string, n: Network, f: Flow)
    requires ValidClusterRules(eps) && AddressesApart(eps) && k in ClusterMap(eps) && ClusterAdmits(n, ClusterMap(eps)[k], f)
    ensures Applies(n, eps, ClusterMap(eps)[k].action, f)
  {
    hide ClusterMap, AddressMatches, ValidClusterRule, PortAdmits, ClusterKey;
    var e := ClusterMap(eps)[k];
    ClusterMapPorts(eps, k, f);
    ClusterMapOrigin(eps, k);
    var x :| x in eps && ClusterKey(x) == Some(k) && SameIdentity(e, x);
    if e.ports == [] {
      assert ClusterAdmits(n, x, f);
    } else {
      assert SomePortAdmits(e.ports, f);
      var y :| y in eps && ClusterKey(y) == Some(k) && SomePortAdmits(y.ports, f);
      ClusterKeyIdentity(eps, x, y);
      assert ClusterAdmits(n, y, f);
    }
  }

  /** Merging never makes a rule apply to traffic that it did not apply to before. */
  lemma ClusterCombineSound(eps: seq<ClusterEndpointInfo>, r: seq<ClusterEndpointInfo>, n: Network, action: string, f: Flow)
    requires ValidClusterRules(eps) && AddressesApart(eps) && ClusterCombinedFrom(eps, r) && Applies(n, r, action, f)
    ensures Applies(n, eps, action, f)
  {
    hide ClusterMap, ClusterCombinedFrom, ClusterAdmits, ValidClusterRules, AddressesApart;
    var order := ClusterListing(eps, r);
    var e :| e in r && e.action == action && ClusterAdmits(n, e, f);
    var i :| 0 <= i < |r| && r[i] == e;
    MergedMeaning(eps, order[i], n, f);
  }

  lemma ClusterCombineComplete(eps: seq<ClusterEndpointInfo>, r: seq<ClusterEndpointInfo>, n: Network, action: string, f: Flow)
    requires ValidClusterRules(eps) && AddressesApart(eps) && ClusterCombinedFrom(eps, r) && Applies(n, eps, action, f)
    requires !Mixed(eps)
    ensures Applies(n, r, action, f)
  {
    hide ClusterMap, ClusterCombinedFrom, ClusterAdmits, AddressesApart, Mixed;
    var order := ClusterListing(eps, r);
    var e :| e in eps && e.action == action && ClusterAdmits(n, e, f);
    assert ValidClusterRule(e);
    var k := ClusterKey(e).value;
    ClusterMapKeys(eps);
    GroupMeaning(eps, e, k, n, f);
  }

  /** The network in which only the given rule's address or domain name matches. */
  function OnlyMatching(e: ClusterEndpointInfo): Network {
    Network((cidr, ip) => cidr == e.cidr, (domain, name) => domain == e.domainName)
  }

  function TargetOf(e: ClusterEndpointInfo): Target { if e.cidr != "" then Address("") else Domain("") }

  /** No well-formed port admits a flow without a protocol. */
  lemma NoPortAdmits(ports: seq<Port>, f: Flow)
    requires ValidPorts(ports) && f.protocol == ""
    ensures !SomePortAdmits(ports, f)
  {
  }

  lemma MixedLosesTraffic(eps: seq<ClusterEndpointInfo>, r: seq<ClusterEndpointInfo>, a: ClusterEndpointInfo, b: ClusterEndpointInfo)
    requires ValidClusterRules(eps) && AddressesApart(eps) && ClusterCombinedFrom(eps, r)
    requires a in eps && b in eps && SameIdentity(a, b) && a.ports == [] && b.ports != []
    ensures var n, f := OnlyMatching(a), Flow(TargetOf(a), "", 0);
            Applies(n, eps, a.action, f) && !Applies(n, r, a.action, f)
  {
    var n, f := OnlyMatching(a), Flow(TargetOf(a), "", 0);
    assert ValidClusterRule(a);
    assert ClusterAdmits(n, a, f);
    hide ClusterMap, ClusterCombinedFrom, ClusterKey, AddressesApart;
    var order := ClusterListing(eps, r);
    forall e | e in r && e.action == a.action ensures !ClusterAdmits(n, e, f) {
      var i :| 0 <= i < |r| && r[i] == e;
      ClusterMapPorts(eps, order[i], f);
      ClusterMapOrigin(eps, order[i]);
      var x :| x in eps && ClusterKey(x) == Some(order[i]) && SameIdentity(e, x);
      ClusterKeyIdentity(eps, b, x);
      NoPortAdmits(e.ports, f);
    }
  }

  /** Merging preserves the meaning of the rules, for every action, network and flow, exactly
      when no group mixes a rule for all ports with a rule for some ports. */
  lemma ClusterCombineExact(eps: seq<ClusterEndpointInfo>, r: seq<ClusterEndpointInfo>)
    requires ValidClusterRules(eps) && AddressesApart(eps) && ClusterCombinedFrom(eps, r)
    ensures (forall n, action, f :: Applies(n, r, action, f) <==> Applies(n, eps, action, f)) <==> !Mixed(eps)
  {
    hide ClusterCombinedFrom, Applies, AddressesApart, ValidClusterRules;
    if Mixed(eps) {
      var a, b :| a in eps && b in eps && SameIdentity(a, b) && a.ports == [] && b.ports != [];
      MixedLosesTraffic(eps, r, a, b);
    } else {
      forall n, action, f ensures Applies(n, r, action, f) <==> Applies(n, eps, action, f) {
        if Applies(n, r, action, f) {
          ClusterCombineSound(eps, r, n, action, f);
        }
        if Applies(n, eps, action, f) {
          ClusterCombineComplete(eps, r, n, action, f);
        }
      }
    }
  }
}
