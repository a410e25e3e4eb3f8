/** The service ports that lead to a policy port, and which one of them the resolver finds. */
module ServiceWays {
  import opened Basics
  import opened Flattening
  import opened PolicyInfo
  import opened Kubernetes
  import opened PolicyMeaning
  import opened Lookups
  import opened EgressEndpoints
  import opened IngressExactness

  // ---------------------------------------------------------------- where a service port leads

  /** The target of the service port is this number, or this name. */
  predicate TargetIs(sp: ServicePort, number: int, name: string) {
    match sp.targetPort
    case Name(s) => s == name
    case Number(n) => n == number
  }

  /** On this pod the target of the service port is the container port that the policy port stands
      for: the first one declared with its name, or with its number; a number that no container
      declares stands for itself. */
  ghost predicate SameContainerPort(pod: Pod, sp: ServicePort, port: IntOrString, protocol: string) {
    match port
    case Name(name) =>
      exists cp: ContainerPort :: FirstDeclared(pod, Called(name, protocol), cp) && TargetIs(sp, cp.containerPort, name)
    case Number(n) =>
      if NoneDeclared(pod, Numbered(n, protocol)) then TargetIs(sp, n, "")
      else exists cp: ContainerPort :: FirstDeclared(pod, Numbered(n, protocol), cp) && TargetIs(sp, n, cp.name)
  }

  /** The look-up of the policy port finds that container port. */
  lemma SameContainerLookup(pod: Pod, sp: ServicePort, port: IntOrString, protocol: string)
    ensures SameContainerPort(pod, sp, port, protocol) <==>
            var found := LookupContainerPortAndName(pod, port, protocol);
            found.Some? && TargetIs(sp, found.value.0, found.value.1)
  {
    hide LookupContainerPortAndName, FirstDeclared, NoneDeclared, TargetIs;
    var found := LookupContainerPortAndName(pod, port, protocol);
    match port {
      case Name(name) =>
        NamedLookup(pod, name, protocol);
        if found.Some? {
          assert found == Some((found.value.0, found.value.1));
        }
        if SameContainerPort(pod, sp, port, protocol) {
          var cp: ContainerPort :| FirstDeclared(pod, Called(name, protocol), cp) && TargetIs(sp, cp.containerPort, name);
          assert found == Some((cp.containerPort, name));
        }
      case Number(n) =>
        NumberedLookup(pod, n, protocol);
        assert found.Some? && found == Some((found.value.0, found.value.1));
        if !NoneDeclared(pod, Numbered(n, protocol)) && SameContainerPort(pod, sp, port, protocol) {
          var cp: ContainerPort :| FirstDeclared(pod, Numbered(n, protocol), cp) && TargetIs(sp, n, cp.name);
          assert found == Some((n, cp.name));
        }
    }
  }

  /** The target of the service port is the policy port itself or stands for it on a backing pod. */
  ghost predicate LeadsTo(pods: seq<Pod>, sp: ServicePort, port: IntOrString, protocol: string) {
    && sp.protocol == protocol
    && (sp.targetPort == port || exists pod :: pod in pods && SameContainerPort(pod, sp, port, protocol))
  }

  // ---------------------------------------------------------------- the first way in

  /** The first element that passes the test. */
  ghost predicate FirstOf<A>(test: A -> bool, s: seq<A>, i: nat) {
    i < |s| && test(s[i]) && forall j: nat | j < i :: !test(s[j])
  }

  function DirectWay(port: IntOrString, protocol: string): ServicePort -> bool {
    (sp: ServicePort) => sp.targetPort == port && sp.protocol == protocol
  }

  ghost function WayOn(pod: Pod, port: IntOrString, protocol: string): ServicePort -> bool {
    (sp: ServicePort) => sp.protocol == protocol && SameContainerPort(pod, sp, port, protocol)
  }

  ghost function HasWay(svc: Service, port: IntOrString, protocol: string): Pod -> bool {
    (pod: Pod) => exists sp | sp in svc.ports :: WayOn(pod, port, protocol)(sp)
  }

  /** The service port that counts for the policy port: the first one whose target is the policy
      port itself; if there is none, the first one that leads there on the first backing pod on
      which any does. */
  ghost predicate FirstWayIn(pods: seq<Pod>, svc: Service, port: IntOrString, protocol: string, i: nat) {
    FirstOf(DirectWay(port, protocol), svc.ports, i) ||
    ((forall sp | sp in svc.ports :: !DirectWay(port, protocol)(sp)) &&
     exists k: nat :: FirstOf(HasWay(svc, port, protocol), pods, k) && FirstOf(WayOn(pods[k], port, protocol), svc.ports, i))
  }

  /** A scan stops at the first element that passes the test. */
  lemma {:induction false} ScanExactly<A, B>(f: A -> Option<B>, test: A -> bool, s: seq<A>)
    requires forall x | x in s :: f(x).Some? <==> test(x)
    ensures forall i: nat | FirstOf(test, s, i) :: FirstSome(f, s) == f(s[i])
    ensures FirstSome(f, s).Some? <==> exists x | x in s :: test(x)
    ensures FirstSome(f, s).Some? ==> exists i: nat :: FirstOf(test, s, i)
  {
    if s != [] {
      assert forall x | x in s[1..] :: x in s;
      ScanExactly(f, test, s[1..]);
      if test(s[0]) {
        assert FirstOf(test, s, 0);
      } else if FirstSome(f, s).Some? {
        var i: nat :| FirstOf(test, s[1..], i);
        forall j: nat | j < i + 1 ensures !test(s[j]) {
          assert j > 0 ==> s[1..][j - 1] == s[j];
        }
        assert FirstOf(test, s, i + 1);
      }
      forall i: nat | FirstOf(test, s, i) ensures FirstSome(f, s) == f(s[i]) {
        FirstSomeIsFirst(f, s, i);
      }
    }
  }

  lemma ScanOn(svc: Service, pod: Pod, port: IntOrString, protocol: string)
    ensures ListenPortOn(svc, port, protocol)(pod).Some? <==> HasWay(svc, port, protocol)(pod)
    ensures forall i: nat | FirstOf(WayOn(pod, port, protocol), svc.ports, i) ::
              ListenPortOn(svc, port, protocol)(pod) == Some(svc.ports[i].port)
    ensures HasWay(svc, port, protocol)(pod) ==> exists i: nat :: FirstOf(WayOn(pod, port, protocol), svc.ports, i)
  {
    hide FirstSome, LookupContainerPortAndName, SameContainerPort;
    var found := LookupContainerPortAndName(pod, port, protocol);
    forall sp { SameContainerLookup(pod, sp, port, protocol); }
    if found.Some? {
      ScanExactly(ListenPortByContainer(found.value.0, found.value.1, protocol), WayOn(pod, port, protocol), svc.ports);
    }
  }

  lemma MatchedDef(pods: seq<Pod>, svc: Service, port: IntOrString, protocol: string)
    ensures var direct := FirstSome(ListenPortByTarget(port, protocol), svc.ports);
            MatchingServicePort(pods, svc, port, protocol) ==
            if direct.Some? then direct else FirstSome(ListenPortOn(svc, port, protocol), pods)
    ensures forall sp | sp in svc.ports :: ListenPortByTarget(port, protocol)(sp) ==
              if DirectWay(port, protocol)(sp) then Some(sp.port) else None
  {
    hide FirstSome;
  }

  lemma FirstWayIsFound(pods: seq<Pod>, svc: Service, port: IntOrString, protocol: string, i: nat)
    requires FirstWayIn(pods, svc, port, protocol, i)
    ensures i < |svc.ports| && MatchingServicePort(pods, svc, port, protocol) == Some(svc.ports[i].port)
  {
    hide MatchingServicePort, FirstSome, ListenPortOn, WayOn, HasWay, DirectWay, ListenPortByTarget;
    MatchedDef(pods, svc, port, protocol);
    ScanExactly(ListenPortByTarget(port, protocol), DirectWay(port, protocol), svc.ports);
    if !FirstOf(DirectWay(port, protocol), svc.ports, i) {
      var k: nat :| FirstOf(HasWay(svc, port, protocol), pods, k) && FirstOf(WayOn(pods[k], port, protocol), svc.ports, i);
      ScanPods(pods, svc, port, protocol);
      ScanOn(svc, pods[k], port, protocol);
    }
  }

  lemma ScanPods(pods: seq<Pod>, svc: Service, port: IntOrString, protocol: string)
    ensures forall k: nat | FirstOf(HasWay(svc, port, protocol), pods, k) ::
              FirstSome(ListenPortOn(svc, port, protocol), pods) == ListenPortOn(svc, port, protocol)(pods[k])
    ensures FirstSome(ListenPortOn(svc, port, protocol), pods).Some? ==> exists k: nat :: FirstOf(HasWay(svc, port, protocol), pods, k)
  {
    hide FirstSome, ListenPortOn, WayOn, HasWay, FirstOf;
    forall pod | pod in pods ensures ListenPortOn(svc, port, protocol)(pod).Some? <==> HasWay(svc, port, protocol)(pod) {
      ScanOn(svc, pod, port, protocol);
    }
    ScanExactly(ListenPortOn(svc, port, protocol), HasWay(svc, port, protocol), pods);
  }

  /** What the resolver finds is the first way in. */
  lemma MatchedExactly(pods: seq<Pod>, svc: Service, port: IntOrString, protocol: string)
    ensures forall i: nat | FirstWayIn(pods, svc, port, protocol, i) ::
              i < |svc.ports| && MatchingServicePort(pods, svc, port, protocol) == Some(svc.ports[i].port)
    ensures MatchingServicePort(pods, svc, port, protocol).Some? ==>
            exists i: nat :: FirstWayIn(pods, svc, port, protocol, i)
  {
    hide MatchingServicePort, FirstSome, ListenPortOn, WayOn, HasWay, DirectWay, ListenPortByTarget, FirstWayIn, FirstOf;
    forall i: nat | FirstWayIn(pods, svc, port, protocol, i)
      ensures i < |svc.ports| && MatchingServicePort(pods, svc, port, protocol) == Some(svc.ports[i].port)
    {
      FirstWayIsFound(pods, svc, port, protocol, i);
    }
    MatchedDef(pods, svc, port, protocol);
    ScanExactly(ListenPortByTarget(port, protocol), DirectWay(port, protocol), svc.ports);
    if i: nat :| FirstOf(DirectWay(port, protocol), svc.ports, i) {
      FirstWayDef(pods, svc, port, protocol, i, 0);
    } else if FirstSome(ListenPortOn(svc, port, protocol), pods).Some? {
      ScanPods(pods, svc, port, protocol);
      var k: nat :| FirstOf(HasWay(svc, port, protocol), pods, k);
      FirstOfDef(HasWay(svc, port, protocol), pods, k);
      ScanOn(svc, pods[k], port, protocol);
      var i: nat :| FirstOf(WayOn(pods[k], port, protocol), svc.ports, i);
      FirstWayDef(pods, svc, port, protocol, i, k);
    }
  }

  lemma FirstOfDef<A>(test: A -> bool, s: seq<A>, i: nat)
    requires FirstOf(test, s, i)
    ensures i < |s| && test(s[i])
  {
  }

  lemma FirstWayDef(pods: seq<Pod>, svc: Service, port: IntOrString, protocol: string, i: nat, k: nat)
    requires FirstOf(DirectWay(port, protocol), svc.ports, i) ||
             ((forall sp | sp in svc.ports :: !DirectWay(port, protocol)(sp)) &&
              FirstOf(HasWay(svc, port, protocol), pods, k) && FirstOf(WayOn(pods[k], port, protocol), svc.ports, i))
    ensures FirstWayIn(pods, svc, port, protocol, i)
  {
    hide DirectWay, HasWay, WayOn;
  }

  // ---------------------------------------------------------------- all ways lead there

  /** The port that the resolver finds is that of a service port that leads to the policy port. */
  lemma MatchedLeads(pods: seq<Pod>, svc: Service, port: IntOrString, protocol: string) returns (sp: ServicePort)
    requires MatchingServicePort(pods, svc, port, protocol).Some?
    ensures sp in svc.ports && LeadsTo(pods, sp, port, protocol)
    ensures sp.port == MatchingServicePort(pods, svc, port, protocol).value
  {
    hide LookupContainerPortAndName, FirstSome, SameContainerPort;
    var listen := MatchingServicePort(pods, svc, port, protocol).value;
    if LookupServiceListenPort(svc, port, protocol).Some? {
      sp :| sp in svc.ports && ListenPortByTarget(port, protocol)(sp) == Some(listen);
    } else {
      var pod :| pod in pods && ListenPortOn(svc, port, protocol)(pod) == Some(listen);
      var found := LookupContainerPortAndName(pod, port, protocol).value;
      sp :| sp in svc.ports && ListenPortByContainer(found.0, found.1, protocol)(sp) == Some(listen);
      SameContainerLookup(pod, sp, port, protocol);
    }
  }

  /** It finds none only when no service port leads to the policy port. */
  lemma UnmatchedLeadsNowhere(pods: seq<Pod>, svc: Service, port: IntOrString, protocol: string, sp: ServicePort)
    requires MatchingServicePort(pods, svc, port, protocol).None? && sp in svc.ports
    ensures !LeadsTo(pods, sp, port, protocol)
  {
    hide LookupContainerPortAndName, SameContainerPort;
    assert ListenPortByTarget(port, protocol)(sp).None?;
    forall pod | pod in pods && sp.protocol == protocol ensures !SameContainerPort(pod, sp, port, protocol) {
      assert ListenPortOn(svc, port, protocol)(pod).None?;
      SameContainerLookup(pod, sp, port, protocol);
      var found := LookupContainerPortAndName(pod, port, protocol);
      if found.Some? {
        assert ListenPortByContainer(found.value.0, found.value.1, protocol)(sp).None?;
      }
    }
  }

  lemma FirstWayLeads(pods: seq<Pod>, svc: Service, port: IntOrString, protocol: string, i: nat)
    requires FirstWayIn(pods, svc, port, protocol, i)
    ensures i < |svc.ports| && LeadsTo(pods, svc.ports[i], port, protocol)
  {
    hide SameContainerPort, HasWay;
    if FirstOf(DirectWay(port, protocol), svc.ports, i) {
      FirstOfDef(DirectWay(port, protocol), svc.ports, i);
    } else {
      var k: nat :| FirstOf(HasWay(svc, port, protocol), pods, k) && FirstOf(WayOn(pods[k], port, protocol), svc.ports, i);
      FirstOfDef(HasWay(svc, port, protocol), pods, k);
      FirstOfDef(WayOn(pods[k], port, protocol), svc.ports, i);
    }
  }

  // ---------------------------------------------------------------- diversion

  /** Some policy port is a number or a range that contains the port, or names no port at all. */
  ghost predicate Permits(ports: seq<PolicyPort>, protocol: string, number: int) {
    CoveredNumerically(ports, Flow(Address(""), protocol, number))
  }

  /** The check of a port is coverage by the numbers of the rule, wherever the traffic goes. */
  lemma AllowedMeaning(port: int, protocol: string, ports: seq<PolicyPort>, t: Target)
    ensures IsNumericPortAllowed(port, protocol, ports) <==> CoveredNumerically(ports, Flow(t, protocol, port))
  {
    ProtocolWords();
    hide ProtocolOr, ProtocolOf;
    var f := Flow(t, protocol, port);
    forall p ensures PortAllows(p, port, protocol) <==> CoversNumerically(p, f) {
    }
  }

  function NamedAt(listen: int, protocol: string): ServicePort -> bool {
    (sp: ServicePort) => sp.port == listen && GivenProtocol(sp.protocol) == protocol && sp.targetPort.Name?
  }

  /** The pod serves the named port on a number that the rule does not permit. */
  ghost predicate ServesForbidden(pod: Pod, name: string, protocol: string, ports: seq<PolicyPort>) {
    exists cp: ContainerPort :: FirstDeclared(pod, Serving(name, protocol), cp) && !Permits(ports, protocol, cp.containerPort)
  }

  lemma DivertsMeaning(pod: Pod, name: string, protocol: string, ports: seq<PolicyPort>)
    ensures Diverts(pod, name, protocol, ports) <==> ServesForbidden(pod, name, protocol, ports)
  {
    hide FirstNamedPort, FirstDeclared, NoneDeclared, IsNumericPortAllowed, CoveredNumerically;
    ServingLookup(pod, name, protocol);
    forall number { AllowedMeaning(number, protocol, ports, Address("")); }
    var found := FirstNamedPort(pod, name, protocol);
    if found.Some? {
      assert found == Some(found.value);
    }
    if ServesForbidden(pod, name, protocol, ports) {
      var cp: ContainerPort :| FirstDeclared(pod, Serving(name, protocol), cp) && !Permits(ports, protocol, cp.containerPort);
      assert found == Some(cp);
    }
  }

  /** The first service port with this listen port and a named target has a target name, and some
      backing pod serves that name on a port that the rule forbids. */
  ghost predicate Bypassed(pods: seq<Pod>, svc: Service, listen: int, protocol: string, ports: seq<PolicyPort>) {
    exists j: nat :: FirstOf(NamedAt(listen, protocol), svc.ports, j)
      && svc.ports[j].targetPort.Name? && svc.ports[j].targetPort.name != ""
      && exists pod :: pod in pods && ServesForbidden(pod, svc.ports[j].targetPort.name, protocol, ports)
  }

  /** That is what the bypass check finds. */
  lemma BypassMeaning(pods: seq<Pod>, svc: Service, listen: int, protocol: string, ports: seq<PolicyPort>)
    ensures HasTargetPortBypass(pods, svc, listen, protocol, ports) <==> Bypassed(pods, svc, listen, protocol, ports)
  {
    ProtocolWords();
    hide FirstSome, Diverts, ServesForbidden, DefaultProtocol, GivenProtocol;
    forall pod, name { DivertsMeaning(pod, name, protocol, ports); }
    ScanExactly(NamedTargetPort(listen, protocol), NamedAt(listen, protocol), svc.ports);
  }
}
