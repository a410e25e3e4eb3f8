/** Semantic equality of published specs (pkg/equality): rules and pods compared as bags of
    canonical texts. */
module Equality {
  import opened Basics
  import opened PolicyInfo
  import opened Framing
  import opened Labels
  import Sorting
  import Combine

  // ---------------------------------------------------------------- canonical texts

  /** portKey */
  function PortText(p: Port): string {
    (match p.protocol case None => "" case Some(x) => x) + "/" + NumberText(p.port) + "/" + NumberText(p.endPort)
  }

  /** fmt.Sprint of a non-empty string list, without the brackets. */
  function Join(sep: char, tokens: seq<string>): string {
    if tokens == [] then "" else if |tokens| == 1 then tokens[0]
    else tokens[0] + [sep] + Join(sep, tokens[1..])
  }

  /** The sorted list in brackets; nothing for an empty list. */
  function CanonicalList(tokens: seq<string>): string {
    if tokens == [] then "" else "[" + Join(' ', Sorting.Sort(tokens)) + "]"
  }

  function PortTexts(ports: seq<Port>): seq<string> { Map(PortText, ports) }

  function RuleTokens(e: EndpointInfo): seq<string> {
    ["cidr=" + e.cidr, "domain=" + e.domainName,
     "ports=" + CanonicalList(PortTexts(e.ports)), "except=" + CanonicalList(e.except)]
  }

  /** endpointInfoKey */
  function EndpointText(e: EndpointInfo): string {
    Join(',', RuleTokens(e))
  }

  /** podEndpointKey */
  function PodText(p: PodEndpoint): string {
    p.namespace + "/" + p.name + "/" + p.podIP + "/" + p.hostIP
  }

  // ---------------------------------------------------------------- the counting loops

  lemma SandwichedBags<K>(a: multiset<K>, b: multiset<K>)
    requires b <= a && |a| == |b|
    ensures a == b
  {
    assert a == b + (a - b);
    assert |a - b| == 0;
  }

  function CountOf<K>(counts: map<K, int>, k: K): int { if k in counts then counts[k] else 0 }

  /** The count-up, count-down comparison: true exactly when the bags of keys coincide. */
  method EqualByKey<T, K(==, !new)>(key: T -> K, a: seq<T>, b: seq<T>) returns (r: bool)
    ensures r <==> Bag(key, a) == Bag(key, b)
  {
    hide Bag;
    BagSize(key, a);
    BagSize(key, b);
    if |a| != |b| {
      return false;
    }
    if |a| == 0 {
      return true;
    }
    var counts: map<K, int> := map[];
    BagEmpty(key);
    assert a[..0] == [] && b[..0] == [];
    for i := 0 to |a|
      invariant forall k :: CountOf(counts, k) == Bag(key, a[..i])[k]
    {
      assert a[..i + 1] == a[..i] + [a[i]];
      BagSnoc(key, a[..i], a[i]);
      var k := key(a[i]);
      counts := counts[k := CountOf(counts, k) + 1];
    }
    assert a[..|a|] == a && b[..|b|] == b;
    for j := 0 to |b|
      invariant forall k :: CountOf(counts, k) + Bag(key, b[..j])[k] == Bag(key, a)[k] && CountOf(counts, k) >= 0
    {
      assert b[..j + 1] == b[..j] + [b[j]];
      BagSnoc(key, b[..j], b[j]);
      var k := key(b[j]);
      counts := counts[k := CountOf(counts, k) - 1];
      if counts[k] < 0 {
        assert b == b[..j + 1] + b[j + 1..];
        BagConcat(key, b[..j + 1], b[j + 1..]);
        return false;
      }
    }
    assert Bag(key, b) <= Bag(key, a);
    SandwichedBags(Bag(key, a), Bag(key, b));
    return true;
  }

  // ---------------------------------------------------------------- specs

  datatype PolicyReference = PolicyReference(name: string, namespace: string)

  datatype PolicyHeader = PolicyHeader(
    podSelector: Option<LabelSelector>, policyRef: PolicyReference, podIsolation: seq<string>)

  type PolicyEndpoint = PolicyObject<PolicyHeader, EndpointInfo>

  ghost predicate SpecEqual(a: PolicyEndpoint, b: PolicyEndpoint) {
    && a.header.podSelector == b.header.podSelector
    && a.header.policyRef == b.header.policyRef
    && Bag(Itself<string>(), a.header.podIsolation) == Bag(Itself<string>(), b.header.podIsolation)
    && Bag(EndpointText, a.ingress) == Bag(EndpointText, b.ingress)
    && Bag(EndpointText, a.egress) == Bag(EndpointText, b.egress)
    && Bag(PodText, a.pods) == Bag(PodText, b.pods)
  }

  method EqualPolicyEndpointSpec(a: PolicyEndpoint, b: PolicyEndpoint) returns (r: bool)
    ensures r <==> SpecEqual(a, b)
  {
    hide Bag, EndpointText, PodText;
    if a.header.podSelector != b.header.podSelector {
      return false;
    }
    if a.header.policyRef != b.header.policyRef {
      return false;
    }
    var same := EqualByKey(Itself<string>(), a.header.podIsolation, b.header.podIsolation);
    if !same {
      return false;
    }
    same := EqualByKey(EndpointText, a.ingress, b.ingress);
    if !same {
      return false;
    }
    same := EqualByKey(EndpointText, a.egress, b.egress);
    if !same {
      return false;
    }
    same := EqualByKey(PodText, a.pods, b.pods);
    return same;
  }

  // ---------------------------------------------------------------- what the texts stand for

  /** A rule up to the order of its ports and exceptions. */
  datatype Canon = Canon(cidr: string, domainName: string, ports: multiset<Port>, except: multiset<string>)

  function CanonOf(e: EndpointInfo): Canon {
    Canon(e.cidr, e.domainName, multiset(e.ports), multiset(e.except))
  }

  lemma {:induction false} JoinFramed(sep: char, tokens: seq<string>)
    requires tokens != []
    ensures Join(sep, tokens) + [sep] == Frame(sep, tokens)
  {
    if |tokens| == 1 {
      assert tokens[1..] == [];
    } else {
      JoinFramed(sep, tokens[1..]);
    }
  }

  lemma CanonicalListExact(a: seq<string>, b: seq<string>)
    requires Free(' ', a) && Free(' ', b)
    ensures CanonicalList(a) == CanonicalList(b) <==> multiset(a) == multiset(b)
  {
    Sorting.SortCanonical(a, b);
    Sorting.SortMembers(a);
    Sorting.SortMembers(b);
    hide Sorting.Sort, Join;
    var s, t := Sorting.Sort(a), Sorting.Sort(b);
    if a == [] || b == [] {
      assert |multiset(a)| == |a| && |multiset(b)| == |b|;
    } else if CanonicalList(a) == CanonicalList(b) {
      var x, y := CanonicalList(a), CanonicalList(b);
      assert x[1..|x| - 1] == Join(' ', s) && y[1..|y| - 1] == Join(' ', t);
      JoinFramed(' ', s);
      JoinFramed(' ', t);
      FrameInjective(' ', s, t);
    }
  }

  lemma PortTextInjective(p: Port, q: Port)
    requires ValidPort(p) && ValidPort(q) && PortText(p) == PortText(q)
    ensures p == q
  {
    var protocol := (x: Port) => match x.protocol case None => "" case Some(v) => v;
    var s := [protocol(p), NumberText(p.port), NumberText(p.endPort)];
    var t := [protocol(q), NumberText(q.port), NumberText(q.endPort)];
    FrameThree('/', s[0], s[1], s[2]);
    FrameThree('/', t[0], t[1], t[2]);
    assert PortText(p) + "/" == Frame('/', s) && PortText(q) + "/" == Frame('/', t);
    FrameInjective('/', s, t);
    assert s[0] == t[0] && s[1] == t[1] && s[2] == t[2];
    NumberTextInjective(p.port, q.port);
    NumberTextInjective(p.endPort, q.endPort);
  }

  lemma PortTextsExact(a: seq<Port>, b: seq<Port>)
    requires ValidPorts(a) && ValidPorts(b)
    ensures multiset(PortTexts(a)) == multiset(PortTexts(b)) <==> multiset(a) == multiset(b)
  {
    forall x, y | x in a + b && y in a + b ensures PortText(x) == PortText(y) <==> x == y {
      if PortText(x) == PortText(y) {
        PortTextInjective(x, y);
      }
    }
    assert Map(Itself<Port>(), a) == a && Map(Itself<Port>(), b) == b;
    assert Bag(PortText, a) == multiset(PortTexts(a)) && Bag(PortText, b) == multiset(PortTexts(b));
    if Bag(PortText, a) == Bag(PortText, b) {
      AgreeingKeys(PortText, Itself<Port>(), a, b);
    }
    if multiset(a) == multiset(b) {
      AgreeingKeys(Itself<Port>(), PortText, a, b);
    }
  }

  lemma PortTextClean(p: Port)
    requires ValidPort(p)
    ensures ' ' !in PortText(p) && ',' !in PortText(p)
  {
  }

  lemma PortTextsClean(ports: seq<Port>)
    requires ValidPorts(ports)
    ensures Free(' ', PortTexts(ports)) && Free(',', PortTexts(ports))
  {
    hide PortText, ValidPort;
    forall t | t in PortTexts(ports) ensures ' ' !in t && ',' !in t {
      var i :| 0 <= i < |ports| && PortTexts(ports)[i] == t;
      PortTextClean(ports[i]);
    }
  }

  lemma {:induction false} JoinClean(c: char, tokens: seq<string>)
    requires c != ' ' && Free(c, tokens)
    ensures c !in Join(' ', tokens)
  {
    if |tokens| > 1 {
      JoinClean(c, tokens[1..]);
    }
  }

  lemma CanonicalListClean(tokens: seq<string>)
    requires Free(',', tokens)
    ensures ',' !in CanonicalList(tokens)
  {
    Sorting.SortMembers(tokens);
    JoinClean(',', Sorting.Sort(tokens));
  }

  lemma FrameFour(sep: char, a: string, b: string, c: string, d: string)
    ensures Frame(sep, [a, b, c, d]) == a + [sep] + b + [sep] + c + [sep] + d + [sep]
  {
    assert [a, b, c, d][1..] == [b, c, d];
    FrameThree(sep, b, c, d);
    assert Frame(sep, [a, b, c, d]) == a + [sep] + Frame(sep, [b, c, d]);
  }

  lemma EndpointTextTokens(e: EndpointInfo)
    requires ValidRule(e)
    ensures EndpointText(e) + "," == Frame(',', RuleTokens(e))
    ensures Free(',', RuleTokens(e))
  {
    PortTextsClean(e.ports);
    CanonicalListClean(PortTexts(e.ports));
    CanonicalListClean(e.except);
    hide CanonicalList, PortTexts, Join;
    JoinFramed(',', RuleTokens(e));
  }

  lemma Tagged(tag: string, a: string, b: string)
    ensures tag + a == tag + b <==> a == b
  {
    assert (tag + a)[|tag|..] == a && (tag + b)[|tag|..] == b;
  }

  /** The canonical text identifies a rule up to the order of its ports and exceptions. */
  lemma EndpointTextExact(a: EndpointInfo, b: EndpointInfo)
    requires ValidRule(a) && ValidRule(b)
    ensures EndpointText(a) == EndpointText(b) <==> CanonOf(a) == CanonOf(b)
  {
    PortTextsClean(a.ports);
    PortTextsClean(b.ports);
    CanonicalListExact(PortTexts(a.ports), PortTexts(b.ports));
    PortTextsExact(a.ports, b.ports);
    CanonicalListExact(a.except, b.except);
    hide CanonicalList, PortTexts, Frame, Join;
    EndpointTextTokens(a);
    EndpointTextTokens(b);
    if EndpointText(a) == EndpointText(b) {
      var s, t := RuleTokens(a), RuleTokens(b);
      FrameInjective(',', s, t);
      assert s[0] == t[0] && s[1] == t[1] && s[2] == t[2] && s[3] == t[3];
      Tagged("cidr=", a.cidr, b.cidr);
      Tagged("domain=", a.domainName, b.domainName);
      Tagged("ports=", CanonicalList(PortTexts(a.ports)), CanonicalList(PortTexts(b.ports)));
      Tagged("except=", CanonicalList(a.except), CanonicalList(b.except));
    }
  }

  /** Two rule lists compare equal exactly when one is a permutation of the other, up to the
      order of ports and exceptions inside the rules. */
  lemma RulesEqualExact(a: seq<EndpointInfo>, b: seq<EndpointInfo>)
    requires ValidRules(a) && ValidRules(b)
    ensures Bag(EndpointText, a) == Bag(EndpointText, b) <==> Bag(CanonOf, a) == Bag(CanonOf, b)
  {
    hide EndpointText, CanonOf;
    forall x, y | x in a + b && y in a + b ensures EndpointText(x) == EndpointText(y) <==> CanonOf(x) == CanonOf(y) {
      EndpointTextExact(x, y);
    }
    if Bag(EndpointText, a) == Bag(EndpointText, b) {
      AgreeingKeys(EndpointText, CanonOf, a, b);
    }
    if Bag(CanonOf, a) == Bag(CanonOf, b) {
      AgreeingKeys(CanonOf, EndpointText, a, b);
    }
  }

  lemma PodTextInjective(p: PodEndpoint, q: PodEndpoint)
    requires ValidPod(p) && ValidPod(q) && PodText(p) == PodText(q)
    ensures p == q
  {
    var s, t := [p.namespace, p.name, p.podIP, p.hostIP], [q.namespace, q.name, q.podIP, q.hostIP];
    FrameFour('/', s[0], s[1], s[2], s[3]);
    FrameFour('/', t[0], t[1], t[2], t[3]);
    assert PodText(p) + "/" == Frame('/', s) && PodText(q) + "/" == Frame('/', t);
    FrameInjective('/', s, t);
    assert s[0] == t[0] && s[1] == t[1] && s[2] == t[2] && s[3] == t[3];
  }

  /** Two pod lists compare equal exactly when one is a permutation of the other. */
  lemma PodsEqualExact(a: seq<PodEndpoint>, b: seq<PodEndpoint>)
    requires ValidPods(a) && ValidPods(b)
    ensures Bag(PodText, a) == Bag(PodText, b) <==> multiset(a) == multiset(b)
  {
    forall x, y | x in a + b && y in a + b ensures PodText(x) == PodText(y) <==> x == y {
      if PodText(x) == PodText(y) {
        PodTextInjective(x, y);
      }
    }
    assert Map(Itself<PodEndpoint>(), a) == a && Map(Itself<PodEndpoint>(), b) == b;
    hide PodText;
    if Bag(PodText, a) == Bag(PodText, b) {
      AgreeingKeys(PodText, Itself<PodEndpoint>(), a, b);
    }
    if multiset(a) == multiset(b) {
      AgreeingKeys(Itself<PodEndpoint>(), PodText, a, b);
    }
  }

  // ---------------------------------------------------------------- equal specs mean the same

  lemma SameCanonAdmits(a: EndpointInfo, b: EndpointInfo, n: Network, f: Flow)
    requires CanonOf(a) == CanonOf(b)
    ensures Admits(n, a, f) == Admits(n, b, f)
  {
    Combine.SameIdentityCovers(a, b, n, f.target);
    assert forall p :: p in a.ports <==> p in multiset(a.ports);
    assert forall p :: p in b.ports <==> p in multiset(b.ports);
    assert |multiset(a.ports)| == |a.ports| && |multiset(b.ports)| == |b.ports|;
  }

  /** Rule lists that compare equal admit the same traffic. */
  lemma EqualRulesAdmitSame(a: seq<EndpointInfo>, b: seq<EndpointInfo>, n: Network, f: Flow)
    requires ValidRules(a) && ValidRules(b)
    requires Bag(EndpointText, a) == Bag(EndpointText, b)
    requires AdmittedBy(n, a, f)
    ensures AdmittedBy(n, b, f)
  {
    RulesEqualExact(a, b);
    hide Admits, CanonOf, EndpointText;
    var e :| e in a && Admits(n, e, f);
    BagMembers(CanonOf, a, CanonOf(e));
    BagMembers(CanonOf, b, CanonOf(e));
    var x :| x in b && CanonOf(x) == CanonOf(e);
    SameCanonAdmits(e, x, n, f);
  }

  ghost predicate ValidSpec(o: PolicyEndpoint) {
    ValidRules(o.ingress) && ValidRules(o.egress) && ValidPods(o.pods)
  }

  /** The comparison decides equality up to reordering at both levels of nesting, is an
      equivalence, and holds only between specs that admit the same traffic. */
  lemma SpecEqualExact(a: PolicyEndpoint, b: PolicyEndpoint)
    requires ValidSpec(a) && ValidSpec(b)
    ensures SpecEqual(a, b) <==>
            && a.header.podSelector == b.header.podSelector && a.header.policyRef == b.header.policyRef
            && multiset(a.header.podIsolation) == multiset(b.header.podIsolation)
            && Bag(CanonOf, a.ingress) == Bag(CanonOf, b.ingress)
            && Bag(CanonOf, a.egress) == Bag(CanonOf, b.egress)
            && multiset(a.pods) == multiset(b.pods)
  {
    RulesEqualExact(a.ingress, b.ingress);
    RulesEqualExact(a.egress, b.egress);
    PodsEqualExact(a.pods, b.pods);
    assert Map(Itself<string>(), a.header.podIsolation) == a.header.podIsolation;
    assert Map(Itself<string>(), b.header.podIsolation) == b.header.podIsolation;
    hide EndpointText, CanonOf, PodText;
  }
}
