/** The identity keys of rules. The SHA-256 over the framed bytes is modelled as the framed
    text itself, that is, as an injective function of it. */
module RuleKeys {
  import opened Basics
  import opened PolicyInfo
  import opened Framing

  function ProtocolKeyPart(p: Option<string>): string {
    match p case None => "nil" case Some(x) => x
  }

  function NumberKeyPart(p: Option<int>): string {
    match p case None => "nil" case Some(n) => Itoa(n)
  }

  function PortTokens(p: Port): (r: seq<string>)
    ensures |r| == 3
  {
    ["proto=" + ProtocolKeyPart(p.protocol), "port=" + NumberKeyPart(p.port), "endPort=" + NumberKeyPart(p.endPort)]
  }

  function PortsTokens(ports: seq<Port>): seq<string> {
    if ports == [] then [] else PortTokens(ports[0]) + PortsTokens(ports[1..])
  }

  function ExceptTokens(except: seq<string>): seq<string> {
    if except == [] then [] else ["except=" + except[0]] + ExceptTokens(except[1..])
  }

  function EndpointInfoTokens(e: EndpointInfo): seq<string> {
    (if e.domainName != "" then ["domainName=" + e.domainName]
     else ["cidr=" + e.cidr] + ExceptTokens(e.except)) + PortsTokens(e.ports)
  }

  /** getEndpointInfoKey */
  function EndpointInfoKey(e: EndpointInfo): string {
    Frame('|', EndpointInfoTokens(e))
  }

  /** getClusterEndpointInfoKey */
  function ClusterEndpointInfoKey(e: ClusterEndpointInfo): string {
    Frame('|', ["cidr=" + e.cidr, "domainName=" + e.domainName, "action=" + e.action] + PortsTokens(e.ports))
  }

  lemma Prefixed(tag: string, a: string, b: string)
    requires tag + a == tag + b
    ensures a == b
  {
    assert a == (tag + a)[|tag|..] && b == (tag + b)[|tag|..];
  }

  lemma NumberKeyPartInjective(a: Option<int>, b: Option<int>)
    requires NumberKeyPart(a) == NumberKeyPart(b)
    ensures a == b
  {
    match (a, b)
    case (Some(m), Some(n)) => ItoaInjective(m, n);
    case (None, Some(n)) => ItoaIsNotNil(n);
    case (Some(m), None) => ItoaIsNotNil(m);
    case (None, None) =>
  }

  lemma PortTokensInjective(p: Port, q: Port)
    requires ValidPort(p) && ValidPort(q)
    requires PortTokens(p) == PortTokens(q)
    ensures p == q
  {
    assert PortTokens(p)[0] == PortTokens(q)[0] && PortTokens(p)[1] == PortTokens(q)[1]
        && PortTokens(p)[2] == PortTokens(q)[2];
    Prefixed("proto=", ProtocolKeyPart(p.protocol), ProtocolKeyPart(q.protocol));
    Prefixed("port=", NumberKeyPart(p.port), NumberKeyPart(q.port));
    Prefixed("endPort=", NumberKeyPart(p.endPort), NumberKeyPart(q.endPort));
    NumberKeyPartInjective(p.port, q.port);
    NumberKeyPartInjective(p.endPort, q.endPort);
  }

  lemma {:induction false} PortsTokensInjective(p: seq<Port>, q: seq<Port>)
    requires ValidPorts(p) && ValidPorts(q)
    requires PortsTokens(p) == PortsTokens(q)
    ensures p == q
  {
    if p != [] && q != [] {
      assert PortsTokens(p)[..3] == PortTokens(p[0]) && PortsTokens(q)[..3] == PortTokens(q[0]);
      assert PortsTokens(p)[3..] == PortsTokens(p[1..]) && PortsTokens(q)[3..] == PortsTokens(q[1..]);
      PortTokensInjective(p[0], q[0]);
      PortsTokensInjective(p[1..], q[1..]);
    }
  }

  lemma Tag(tag: string, a: string)
    requires tag != ""
    ensures tag + a != "" && (tag + a)[0] == tag[0]
  {
  }

  lemma PortsHead(p: seq<Port>)
    ensures PortsTokens(p) != [] ==> PortsTokens(p)[0] != "" && PortsTokens(p)[0][0] == 'p'
  {
    if p != [] {
      Tag("proto=", ProtocolKeyPart(p[0].protocol));
      assert PortsTokens(p)[0] == PortTokens(p[0])[0];
    }
  }

  lemma ConcatHead(x: string, s: seq<string>, t: seq<string>)
    ensures var r := ([x] + s) + t; r != [] && r[0] == x && r[1..] == s + t
  {
  }

  /** The first token tells whether any exception is left. */
  lemma ExceptHead(a: seq<string>, p: seq<Port>)
    ensures var s := ExceptTokens(a) + PortsTokens(p);
            if a == [] then s == PortsTokens(p) && (s != [] ==> s[0] != "" && s[0][0] == 'p')
            else && s != [] && s[0] == "except=" + a[0] && s[0][0] == 'e'
                 && s[1..] == ExceptTokens(a[1..]) + PortsTokens(p)
  {
    PortsHead(p);
    hide PortsTokens;
    if a == [] {
      assert [] + PortsTokens(p) == PortsTokens(p);
    } else {
      Tag("except=", a[0]);
      ConcatHead("except=" + a[0], ExceptTokens(a[1..]), PortsTokens(p));
    }
  }

  lemma {:induction false} ExceptAndPortsInjective(a: seq<string>, p: seq<Port>, b: seq<string>, q: seq<Port>)
    requires ValidPorts(p) && ValidPorts(q)
    requires ExceptTokens(a) + PortsTokens(p) == ExceptTokens(b) + PortsTokens(q)
    ensures a == b && p == q
  {
    hide ExceptTokens, PortsTokens;
    ExceptHead(a, p);
    ExceptHead(b, q);
    if a == [] && b == [] {
      PortsTokensInjective(p, q);
    } else if a != [] && b != [] {
      Prefixed("except=", a[0], b[0]);
      ExceptAndPortsInjective(a[1..], p, b[1..], q);
    }
  }

  lemma PortTokensFree(p: Port)
    requires ValidPort(p)
    ensures Free('|', PortTokens(p))
  {
    var s := PortTokens(p);
    assert '|' !in s[0] && '|' !in s[1] && '|' !in s[2];
  }

  lemma {:induction false} PortsTokensFree(ports: seq<Port>)
    requires ValidPorts(ports)
    ensures Free('|', PortsTokens(ports))
  {
    if ports != [] {
      PortTokensFree(ports[0]);
      hide PortTokens, ValidPort;
      PortsTokensFree(ports[1..]);
    }
  }

  lemma {:induction false} ExceptTokensFree(except: seq<string>)
    requires forall x | x in except :: CleanAddress(x)
    ensures Free('|', ExceptTokens(except))
  {
    if except != [] {
      ExceptTokensFree(except[1..]);
      assert CleanAddress(except[0]);
    }
  }

  lemma EndpointInfoTokensFree(e: EndpointInfo)
    requires ValidRule(e)
    ensures Free('|', EndpointInfoTokens(e))
  {
    PortsTokensFree(e.ports);
    ExceptTokensFree(e.except);
  }

  lemma EndpointInfoTokensHead(e: EndpointInfo)
    ensures var s := EndpointInfoTokens(e);
            && s != [] && s[0] != ""
            && if e.domainName != "" then
                 s[0] == "domainName=" + e.domainName && s[0][0] == 'd' && s[1..] == PortsTokens(e.ports)
               else
                 s[0] == "cidr=" + e.cidr && s[0][0] == 'c' && s[1..] == ExceptTokens(e.except) + PortsTokens(e.ports)
  {
    var s := EndpointInfoTokens(e);
    if e.domainName == "" {
      assert s == ["cidr=" + e.cidr] + (ExceptTokens(e.except) + PortsTokens(e.ports));
    }
  }

  lemma EndpointInfoTokensInjective(a: EndpointInfo, b: EndpointInfo)
    requires ValidRule(a) && ValidRule(b)
    requires EndpointInfoTokens(a) == EndpointInfoTokens(b)
    ensures a == b
  {
    hide EndpointInfoTokens, ExceptTokens, PortsTokens;
    EndpointInfoTokensHead(a);
    EndpointInfoTokensHead(b);
    if a.domainName != "" {
      Prefixed("domainName=", a.domainName, b.domainName);
      PortsTokensInjective(a.ports, b.ports);
    } else {
      Prefixed("cidr=", a.cidr, b.cidr);
      ExceptAndPortsInjective(a.except, a.ports, b.except, b.ports);
    }
  }

  /** No two different rules have the same key: addresses, exceptions and ports, an absent
      port and any number, a range and a single port all stay apart. */
  lemma EndpointInfoKeyInjective(a: EndpointInfo, b: EndpointInfo)
    requires ValidRule(a) && ValidRule(b)
    requires EndpointInfoKey(a) == EndpointInfoKey(b)
    ensures a == b
  {
    EndpointInfoTokensFree(a);
    EndpointInfoTokensFree(b);
    FrameInjective('|', EndpointInfoTokens(a), EndpointInfoTokens(b));
    EndpointInfoTokensInjective(a, b);
  }

  predicate ValidClusterRule(e: ClusterEndpointInfo) {
    && CleanAddress(e.cidr) && CleanAddress(e.domainName)
    && '|' !in e.action && ':' !in e.action && ',' !in e.action
    && ValidPorts(e.ports)
    && (e.domainName == "" <==> e.cidr != "")
  }

  predicate ValidClusterRules(es: seq<ClusterEndpointInfo>) {
    forall e | e in es :: ValidClusterRule(e)
  }

  lemma ClusterEndpointInfoKeyInjective(a: ClusterEndpointInfo, b: ClusterEndpointInfo)
    requires ValidClusterRule(a) && ValidClusterRule(b)
    requires ClusterEndpointInfoKey(a) == ClusterEndpointInfoKey(b)
    ensures a == b
  {
    PortsTokensFree(a.ports);
    PortsTokensFree(b.ports);
    var heads := (e: ClusterEndpointInfo) => ["cidr=" + e.cidr, "domainName=" + e.domainName, "action=" + e.action];
    var s, t := heads(a) + PortsTokens(a.ports), heads(b) + PortsTokens(b.ports);
    assert s == ["cidr=" + a.cidr, "domainName=" + a.domainName, "action=" + a.action] + PortsTokens(a.ports);
    assert t == ["cidr=" + b.cidr, "domainName=" + b.domainName, "action=" + b.action] + PortsTokens(b.ports);
    FrameInjective('|', s, t);
    assert s[0] == t[0] && s[1] == t[1] && s[2] == t[2];
    Prefixed("cidr=", a.cidr, b.cidr);
    Prefixed("domainName=", a.domainName, b.domainName);
    Prefixed("action=", a.action, b.action);
    assert s[3..] == PortsTokens(a.ports) && t[3..] == PortsTokens(b.ports);
    PortsTokensInjective(a.ports, b.ports);
  }

  /** Well-formed protocols are needed: a protocol spelled "nil" collides with an absent one. */
  lemma NilProtocolCollides()
    ensures exists a: EndpointInfo, b: EndpointInfo :: a != b && EndpointInfoKey(a) == EndpointInfoKey(b)
  {
    var p, q := Port(None, None, None), Port(Some("nil"), None, None);
    var a, b := EndpointInfo("10.0.0.0/8", [], [p], ""), EndpointInfo("10.0.0.0/8", [], [q], "");
    assert PortTokens(p) == PortTokens(q);
    assert PortsTokens([p]) == PortTokens(p) + PortsTokens([p][1..]);
    assert PortsTokens([q]) == PortTokens(q) + PortsTokens([q][1..]);
    assert EndpointInfoKey(a) == EndpointInfoKey(b);
  }
}
