/** The look-ups of the controller find what the words of `PolicyMeaning` say. */
module Lookups {
  import opened Basics
  import opened Flattening
  import opened Labels
  import opened Kubernetes
  import opened Endpoints
  import opened EgressEndpoints
  import opened PolicyMeaning

  lemma PodWords()
    ensures forall pod: Pod :: GetPodIP(pod) == AddressOf(pod)
    ensures forall pod: Pod :: IsPodNetworkReady(pod) <==> Ready(pod)
    ensures forall policy: NetworkPolicy, pod: Pod :: AppliesTo(policy, pod) <==> Governs(policy, pod)
    ensures forall selector: Option<LabelSelector>, labels: LabelSet :: Selects(selector, labels) <==> Selected(selector, labels)
  {
    hide Matches;
  }

  lemma ProtocolWords()
    ensures forall p: PolicyPort :: ProtocolOr(p.protocol) == ProtocolOf(p)
    ensures forall given: string :: DefaultProtocol(given) == GivenProtocol(given)
  {
  }

  lemma ServiceWords()
    ensures forall svc: Service :: SelectorSet(svc) == LabelsOf(svc)
    ensures forall svc: Service :: IsServiceHeadless(svc) <==> !Exposed(svc)
    ensures forall svc: Service, pod: Pod :: Backs(svc, pod) <==> Behind(svc, pod)
  {
  }

  /** The pods that the selector of the service matches are those behind it, in the same order. */
  lemma {:induction false} BehindInOrder(pods: seq<Pod>, svc: Service)
    ensures FlatMap(BackingPod(svc), pods) == PodsBehind(pods, svc)
  {
    ServiceWords();
    hide Backs, Behind;
    if pods != [] {
      BehindInOrder(pods[..|pods| - 1], svc);
    }
  }

  // ---------------------------------------------------------------- container ports

  /** What a scan of the first `n` containers finds: the first place among them that passes. */
  lemma {:induction false} ScanPlaces(pod: Pod, f: ContainerPort -> Option<ContainerPort>, test: ContainerPort -> bool, n: nat)
    returns (at: Place)
    requires n <= |pod.containers| && forall cp :: f(cp) == if test(cp) then Some(cp) else None
    ensures var found := FirstSome(f, FlatMap(PortsOfContainer(), pod.containers[..n]));
            if found.Some? then at.container < n && FirstAt(pod, test, at) && found.value == PortAt(pod, at)
            else forall other: Place | Declared(pod, other) && other.container < n :: !test(PortAt(pod, other))
  {
    hide FlatMap, FirstSome;
    at := Place(0, 0);
    FlatMapStart(PortsOfContainer(), pod.containers);
    if n == 0 {
      NothingFound(f);
    } else {
      var ports := pod.containers[n - 1].ports;
      var rest := FlatMap(PortsOfContainer(), pod.containers[..n - 1]);
      FlatMapSnoc(PortsOfContainer(), pod.containers, n - 1);
      FirstSomeConcat(f, rest, ports);
      at := ScanPlaces(pod, f, test, n - 1);
      if FirstSome(f, rest).None? && FirstSome(f, ports).Some? {
        var i := FirstIndex(f, ports);
        at := Place(n - 1, i);
        assert test(PortAt(pod, at));
      } else if FirstSome(f, rest).None? {
        forall other: Place | Declared(pod, other) && other.container < n ensures !test(PortAt(pod, other)) {
          if other.container == n - 1 {
            NoneIndexed(f, ports, other.port);
          }
        }
      }
    }
  }

  lemma NothingFound<A, B>(f: A -> Option<B>)
    ensures FirstSome(f, []) == None
  {
  }

  lemma {:induction false} FirstIndex<A, B>(f: A -> Option<B>, s: seq<A>) returns (i: nat)
    requires FirstSome(f, s).Some?
    ensures i < |s| && f(s[i]) == FirstSome(f, s) && forall j :: 0 <= j < i ==> f(s[j]).None?
  {
    i := 0;
    if f(s[0]).None? {
      i := FirstIndex(f, s[1..]);
      i := i + 1;
    }
  }

  lemma NoneIndexed<A, B>(f: A -> Option<B>, s: seq<A>, i: nat)
    requires FirstSome(f, s).None? && i < |s|
    ensures f(s[i]).None?
  {
  }

  /** A scan of the container ports finds the first one declared that passes. */
  lemma ScanDeclared(pod: Pod, f: ContainerPort -> Option<ContainerPort>, test: ContainerPort -> bool)
    requires forall cp :: f(cp) == if test(cp) then Some(cp) else None
    ensures forall cp :: FirstSome(f, ContainerPorts(pod)) == Some(cp) <==> FirstDeclared(pod, test, cp)
    ensures FirstSome(f, ContainerPorts(pod)).None? <==> NoneDeclared(pod, test)
  {
    hide FlatMap, FirstSome;
    var at := ScanPlaces(pod, f, test, |pod.containers|);
    assert pod.containers[..|pod.containers|] == pod.containers;
    var found := FirstSome(f, ContainerPorts(pod));
    if found.Some? {
      assert FirstDeclared(pod, test, found.value);
      forall cp | FirstDeclared(pod, test, cp) ensures cp == found.value {
        FirstUnique(pod, test, cp, found.value);
      }
    }
  }

  /** A named port is looked up as the first container port with this name and protocol. */
  lemma NamedLookup(pod: Pod, name: string, protocol: string)
    ensures forall number, found :: LookupContainerPortAndName(pod, Name(name), protocol) == Some((number, found)) <==>
              found == name && exists cp: ContainerPort :: FirstDeclared(pod, Called(name, protocol), cp) && cp.containerPort == number
    ensures LookupContainerPortAndName(pod, Name(name), protocol).None? <==> NoneDeclared(pod, Called(name, protocol))
  {
    hide ContainerPorts, FirstSome, FirstDeclared, NoneDeclared;
    ScanDeclared(pod, MatchContainerPort(Name(name), protocol), Called(name, protocol));
    forall cp | FirstDeclared(pod, Called(name, protocol), cp) ensures cp.name == name {
      FirstPasses(pod, Called(name, protocol), cp);
    }
  }

  /** A number is looked up as itself, with the name of the first container port that has it. */
  lemma NumberedLookup(pod: Pod, number: int, protocol: string)
    ensures forall n, name :: LookupContainerPortAndName(pod, Number(number), protocol) == Some((n, name)) <==>
              n == number && if NoneDeclared(pod, Numbered(number, protocol)) then name == ""
                             else exists cp: ContainerPort :: FirstDeclared(pod, Numbered(number, protocol), cp) && cp.name == name
  {
    hide ContainerPorts, FirstSome, FirstDeclared, NoneDeclared;
    ScanDeclared(pod, MatchContainerPort(Number(number), protocol), Numbered(number, protocol));
    forall cp | FirstDeclared(pod, Numbered(number, protocol), cp) ensures cp.containerPort == number {
      FirstPasses(pod, Numbered(number, protocol), cp);
    }
  }

  /** The named target port of a service is looked up as Kubernetes resolves it. */
  lemma ServingLookup(pod: Pod, name: string, protocol: string)
    ensures forall cp :: FirstNamedPort(pod, name, protocol) == Some(cp) <==> FirstDeclared(pod, Serving(name, protocol), cp)
    ensures FirstNamedPort(pod, name, protocol).None? <==> NoneDeclared(pod, Serving(name, protocol))
  {
    hide ContainerPorts, FirstSome, FirstDeclared, NoneDeclared;
    ScanDeclared(pod, NamedContainerPort(name, protocol), Serving(name, protocol));
  }

  lemma FirstPasses(pod: Pod, test: ContainerPort -> bool, cp: ContainerPort)
    requires FirstDeclared(pod, test, cp)
    ensures test(cp)
  {
  }
}
