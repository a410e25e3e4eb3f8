/** When reconciliation comes to rest: after a complete round, all further rounds with the same
    desired endpoints are quiet exactly when the store rests. */
module Quiescence {
  import opened Basics
  import opened PolicyInfo
  import opened Packing
  import opened Purge
  import opened RuleKeys
  import opened Combine
  import opened Reconciler
  import opened Placement
  import opened Equality
  import opened Store
  import opened WriteEffects
  import opened Convergence
  import opened RoundResult
  import opened Refilling
  import opened ReorderedCopies
  import opened QuietRounds

  /** In this direction either no object holds reordered copies, or a single one does, which has
      room for all its rules and is packed before every other object that has room: the others
      are full, or the purge empties them while it leaves something in the one with the copies. */
  ghost predicate RestsOn(now: Objects, resolved: Resolved, chunk: nat, dir: Direction) {
    forall n | n in now && HasCopies(now[n], resolved, dir) ::
      && |RulesOf(now[n], dir)| <= chunk
      && forall m | m in now && m != n ::
           && !HasCopies(now[m], resolved, dir)
           && (|RulesOf(now[m], dir)| >= chunk || (LeftBare(now[m], resolved) && !LeftBare(now[n], resolved)))
  }

  ghost predicate Resting(now: Objects, resolved: Resolved, chunk: nat) {
    RestsOn(now, resolved, chunk, Ingress) && RestsOn(now, resolved, chunk, Egress)
  }

  /** A round of this policy with these desired endpoints. */
  ghost predicate RoundOn(now: Objects, policy: Policy, resolved: Resolved, chunk: nat, again: Round) {
    RoundValid(now, again) && again.policy == policy && again.resolved == resolved && again.chunk == chunk
  }

  ghost predicate Writing(now: Objects, again: Round)
    requires RoundValid(now, again)
  {
    Writes(now, again) != []
  }

  // ---------------------------------------------------------------- rounds exist

  lemma {:induction false} SomeListing<T>(s: set<T>) returns (ks: seq<T>)
    ensures Lists(ks, s)
    decreases |s|
  {
    if s == {} {
      ks := [];
    } else {
      var x :| x in s;
      var rest := SomeListing(s - {x});
      ks := [x] + rest;
      assert multiset(s) == multiset{x} + multiset(s - {x});
    }
  }

  lemma SomeMerge(rules: seq<EndpointInfo>) returns (merged: seq<EndpointInfo>)
    ensures CombinedFrom(rules, merged)
  {
    hide CombineMap;
    var order := SomeListing(CombineMap(rules).Keys);
    ListsMembers(order, CombineMap(rules).Keys);
    merged := Lookup(CombineMap(rules), order);
  }

  lemma {:induction false} SomeMerges(os: seq<PolicyEndpoint>) returns (ms: seq<PolicyEndpoint>)
    ensures Merged(os, ms)
  {
    hide CombinedFrom;
    if os == [] {
      ms := [];
    } else {
      var init, last := os[..|os| - 1], os[|os| - 1];
      var rest := SomeMerges(init);
      var ingress := SomeMerge(last.ingress);
      var egress := SomeMerge(last.egress);
      ms := rest + [last.(ingress := ingress, egress := egress)];
    }
  }

  lemma {:induction false} LongestName(names: set<string>) returns (length: nat)
    ensures forall n | n in names :: |n| <= length
    decreases |names|
  {
    if names == {} {
      length := 0;
    } else {
      var n :| n in names;
      var rest := LongestName(names - {n});
      length := Max(rest, |n|);
    }
  }

  /** The API server never runs out of names. */
  lemma SomeNames(now: Objects, k: nat) returns (names: seq<string>)
    ensures |names| == k && FreshNames(now, names)
  {
    var length := LongestName(now.Keys);
    names := seq(k, i requires 0 <= i < k => seq(length + 1 + i, _ => 'x'));
    forall i | 0 <= i < k ensures names[i] != "" && names[i] !in now {
      assert |names[i]| == length + 1 + i;
      assert names[i] !in now.Keys;
    }
    forall i, j | 0 <= i < j < k ensures names[i] != names[j] {
      assert |names[i]| == length + 1 + i && |names[j]| == length + 1 + j;
    }
  }

  /** Every order of listing and of the maps belongs to some round. */
  lemma SomeRound(now: Objects, policy: Policy, resolved: Resolved, chunk: nat, listing: seq<string>, order: Order) returns (again: Round)
    requires chunk > 0 && ValidResolved(resolved) && ListsStore(now, listing)
    requires ValidOrder(ConfigOf(policy, chunk), ObjectsListed(now, listing), DesiredBy(resolved), order)
    ensures RoundOn(now, policy, resolved, chunk, again) && again.listing == listing && again.order == order
  {
    hide PlanFor, ValidOrder, ValidResolved, Merged, FreshNames;
    var p := PlanFor(ConfigOf(policy, chunk), ObjectsListed(now, listing), DesiredBy(resolved), order);
    var create := SomeMerges(p.create);
    var update := SomeMerges(p.update);
    var names := SomeNames(now, |create|);
    again := Round(policy, chunk, resolved, listing, order, Plan(create, update, p.delete), names);
    RoundValidDef(now, again);
  }

  lemma SomeOrder(now: Objects, policy: Policy, resolved: Resolved, chunk: nat, listing: seq<string>) returns (order: Order)
    requires forall n | n in listing :: n in now
    ensures ValidOrder(ConfigOf(policy, chunk), ObjectsListed(now, listing), DesiredBy(resolved), order)
  {
    var existing, d := ObjectsListed(now, listing), DesiredBy(resolved);
    hide Left, Lists, DesiredBy, EndpointInfoKey, Ingresses, Egresses, PodLists, Itself;
    var ingress := SomeListing(Left(EndpointInfoKey, Ingresses(existing), d.ingress.Keys));
    var egress := SomeListing(Left(EndpointInfoKey, Egresses(existing), d.egress.Keys));
    var pods := SomeListing(Left(Itself<PodEndpoint>(), PodLists(existing), d.pods));
    order := Order(ingress, egress, pods);
  }

  lemma RoundFrom(now: Objects, policy: Policy, resolved: Resolved, chunk: nat, listing: seq<string>) returns (again: Round)
    requires chunk > 0 && ValidResolved(resolved) && ListsStore(now, listing)
    ensures RoundOn(now, policy, resolved, chunk, again) && again.listing == listing
  {
    hide *;
    ListsStoreDef(now, listing);
    var order := SomeOrder(now, policy, resolved, chunk, listing);
    again := SomeRound(now, policy, resolved, chunk, listing, order);
  }

  lemma StoreListing(now: Objects) returns (listing: seq<string>)
    ensures ListsStore(now, listing)
  {
    listing := SomeListing(now.Keys);
    ListsMembers(listing, now.Keys);
  }

  /** Some listing starts with a given object. */
  lemma ListingFrom(now: Objects, m: string) returns (listing: seq<string>)
    requires m in now
    ensures ListsStore(now, listing) && listing != [] && listing[0] == m
  {
    var rest := SomeListing(now.Keys - {m});
    listing := [m] + rest;
    assert multiset(now.Keys) == multiset{m} + multiset(now.Keys - {m});
    ListsMembers(listing, now.Keys);
  }

  // ---------------------------------------------------------------- objects and slots

  lemma RoundOnParts(now: Objects, policy: Policy, resolved: Resolved, chunk: nat, again: Round)
    requires RoundOn(now, policy, resolved, chunk, again)
    ensures RoundValid(now, again) && again.policy == policy && again.resolved == resolved && again.chunk == chunk
  {
    hide RoundValid;
  }

  lemma WritingDef(now: Objects, again: Round)
    requires RoundValid(now, again)
    ensures |again.names| == |again.plan.create|
    ensures Writing(now, again) <==> Writes(now, again) != []
  {
    RoundSizes(now, again);
    hide RoundValid, Writes;
  }

  /** A round is quiet exactly when it gives every object back what it takes away. */
  lemma QuietIffRestored(now: Objects, again: Round)
    requires RoundValid(now, again) && Reached(now, again.policy, again.resolved)
    ensures forall n | n in SlotOrder(now, again) :: n in now
    ensures !Writing(now, again) <==> Restored(now, again, Ingress) && Restored(now, again, Egress)
  {
    hide *;
    SlotsOrdered(now, again);
    WritingDef(now, again);
    if Writes(now, again) == [] {
      QuietRestored(now, again);
    }
    if Restored(now, again, Ingress) && Restored(now, again, Egress) {
      RestoredQuiet(now, again);
    }
  }

  lemma RestoredFrom(now: Objects, again: Round, dir: Direction)
    requires RoundValid(now, again) && (forall n | n in SlotOrder(now, again) :: n in now)
    requires |LensOn(SlotsOf(now, again), dir)| == |SlotOrder(now, again)|
    ensures Restored(now, again, dir) <==>
            Refills(CanonOf, LensOn(SlotsOf(now, again), dir), Items(now, again, dir), again.chunk,
              Losts(now, again.resolved, SlotOrder(now, again), dir))
  {
    hide RoundValid, SlotsOf, SlotOrder, Items, LensOn, CanonOf, Lost, Refills;
  }

  lemma SlotOfObject(now: Objects, again: Round, n: string) returns (j: nat)
    requires RoundValid(now, again) && Reached(now, again.policy, again.resolved) && n in now
    ensures forall n | n in SlotOrder(now, again) :: n in now
    ensures j < |SlotOrder(now, again)| == |SlotsOf(now, again)| && SlotOrder(now, again)[j] == n
  {
    hide *;
    SlotsOrdered(now, again);
    ListsMembers(SlotOrder(now, again), now.Keys);
    j :| j < |SlotOrder(now, again)| && SlotOrder(now, again)[j] == n;
  }

  /** The size of a slot, what its object lost, and whether it is empty. */
  lemma SlotFacts(now: Objects, again: Round, dir: Direction, j: nat)
    requires RoundValid(now, again) && Reached(now, again.policy, again.resolved)
    requires j < |SlotOrder(now, again)|
    ensures forall n | n in SlotOrder(now, again) :: n in now
    ensures |LensOn(SlotsOf(now, again), dir)| == |SlotsOf(now, again)| == |SlotOrder(now, again)|
    ensures SlotOrder(now, again)[j] in now
    ensures var o := now[SlotOrder(now, again)[j]];
            && |RulesOf(o, dir)| == LensOn(SlotsOf(now, again), dir)[j] + |Losts(now, again.resolved, SlotOrder(now, again), dir)[j]|
            && (HasCopies(o, again.resolved, dir) <==> Losts(now, again.resolved, SlotOrder(now, again), dir)[j] != [])
            && (LeftBare(o, again.resolved) <==> IsBare(SlotsOf(now, again)[j]))
  {
    hide *;
    SlotsOrdered(now, again);
    ReachedParts(now, again.policy, again.resolved);
    LensAt(now, again, dir, j);
    var n := SlotOrder(now, again)[j];
    LostSplit(now[n], again.resolved, dir);
    CopiesAreLost(now, again.resolved, again.listing, n, dir);
    SlotAt(now, again, j);
    TrimmedBare(now, again.policy, again.resolved, n);
  }

  lemma SlotsDistinct(now: Objects, again: Round, i: nat, j: nat)
    requires RoundValid(now, again) && Reached(now, again.policy, again.resolved)
    requires i < |SlotOrder(now, again)| && j < |SlotOrder(now, again)| && i != j
    ensures SlotOrder(now, again)[i] != SlotOrder(now, again)[j]
  {
    hide *;
    SlotsOrdered(now, again);
    ListsMembers(SlotOrder(now, again), now.Keys);
  }

  // ---------------------------------------------------------------- resting stores are quiet

  /** At rest, every object gets its copies back, as the desired rules themselves. */
  lemma RestingRestored(now: Objects, again: Round, dir: Direction)
    requires RoundValid(now, again) && Reached(now, again.policy, again.resolved)
    requires RestsOn(now, again.resolved, again.chunk, dir)
    ensures forall n | n in SlotOrder(now, again) :: n in now
    ensures Restored(now, again, dir)
  {
    hide *;
    SlotsOrdered(now, again);
    ItemsAreLost(now, again, dir);
    LensOnSize(SlotsOf(now, again), dir);
    RestoredFrom(now, again, dir);
    var names, lens := SlotOrder(now, again), LensOn(SlotsOf(now, again), dir);
    var losts := Losts(now, again.resolved, names, dir);
    if t: nat :| t < |names| && losts[t] != [] {
      SlotFacts(now, again, dir, t);
      RestsOnAt(now, again.resolved, again.chunk, dir, names[t]);
      forall j: nat | j < |names| && j != t ensures losts[j] == [] && (j < t ==> lens[j] >= again.chunk) {
        SlotFacts(now, again, dir, j);
        SlotsDistinct(now, again, j, t);
        RestsOnOther(now, again.resolved, again.chunk, dir, names[t], names[j]);
        if j < t && IsBare(SlotsOf(now, again)[j]) {
          RoundListing(now, again);
          ListsStoreDef(now, again.listing);
          SlotsOfDef(now, again);
          LoadedFirst(ConfigOf(again.policy, again.chunk), ObjectsListed(now, again.listing), DesiredBy(again.resolved), j, t);
        }
      }
      RefillsOne(CanonOf, lens, Items(now, again, dir), again.chunk, losts, t);
    } else {
      RefillsNone(CanonOf, lens, Items(now, again, dir), again.chunk, losts);
    }
  }

  lemma RestsOnAt(now: Objects, resolved: Resolved, chunk: nat, dir: Direction, n: string)
    requires RestsOn(now, resolved, chunk, dir) && n in now && HasCopies(now[n], resolved, dir)
    ensures |RulesOf(now[n], dir)| <= chunk
  {
    hide HasCopies, LeftBare, RulesOf;
  }

  lemma RestsOnOther(now: Objects, resolved: Resolved, chunk: nat, dir: Direction, n: string, m: string)
    requires RestsOn(now, resolved, chunk, dir) && n in now && HasCopies(now[n], resolved, dir) && m in now && m != n
    ensures !HasCopies(now[m], resolved, dir)
    ensures |RulesOf(now[m], dir)| >= chunk || (LeftBare(now[m], resolved) && !LeftBare(now[n], resolved))
  {
    hide HasCopies, LeftBare, RulesOf;
  }

  // ---------------------------------------------------------------- other stores are not

  /** An object that has no room for what it loses makes every round write. */
  lemma OverfullWrites(now: Objects, policy: Policy, resolved: Resolved, chunk: nat, dir: Direction, n: string) returns (again: Round)
    requires chunk > 0 && Reached(now, policy, resolved)
    requires n in now && HasCopies(now[n], resolved, dir) && |RulesOf(now[n], dir)| > chunk
    ensures RoundOn(now, policy, resolved, chunk, again) && RoundValid(now, again) && Writing(now, again)
  {
    hide *;
    ReachedParts(now, policy, resolved);
    var listing := StoreListing(now);
    again := RoundFrom(now, policy, resolved, chunk, listing);
    RoundOnParts(now, policy, resolved, chunk, again);
    QuietIffRestored(now, again);
    var t := SlotOfObject(now, again, n);
    SlotFacts(now, again, dir, t);
    RestoredFrom(now, again, dir);
    NotRefilled(LensOn(SlotsOf(now, again), dir), Items(now, again, dir), chunk, Losts(now, resolved, SlotOrder(now, again), dir), t);
    NotRestored(now, again, dir);
  }

  lemma NotRefilled(lens: seq<nat>, items: seq<EndpointInfo>, chunk: nat, lost: seq<seq<EndpointInfo>>, t: nat)
    requires t < |lens| == |lost| && lost[t] != [] && lens[t] + |lost[t]| > chunk
    ensures !Refills(CanonOf, lens, items, chunk, lost)
  {
    hide Refills, CanonOf;
    if Refills(CanonOf, lens, items, chunk, lost) {
      RefillsFits(CanonOf, lens, items, chunk, lost, t);
    }
  }

  lemma NotRestored(now: Objects, again: Round, dir: Direction)
    requires RoundValid(now, again) && (forall n | n in SlotOrder(now, again) :: n in now)
    requires !Restored(now, again, dir)
    ensures !(Restored(now, again, Ingress) && Restored(now, again, Egress))
  {
    hide RoundValid, SlotOrder, Restored;
  }

  /** An object with room that is packed earlier takes a rule away from the one that lost it. */
  lemma RoomyFirstWrites(now: Objects, policy: Policy, resolved: Resolved, chunk: nat, dir: Direction, n: string, m: string) returns (again: Round)
    requires chunk > 0 && Reached(now, policy, resolved)
    requires n in now && HasCopies(now[n], resolved, dir) && m in now && m != n
    requires forall k | k in now && k != n :: !HasCopies(now[k], resolved, dir)
    requires |RulesOf(now[m], dir)| < chunk && !(LeftBare(now[m], resolved) && !LeftBare(now[n], resolved))
    ensures RoundOn(now, policy, resolved, chunk, again) && RoundValid(now, again) && Writing(now, again)
  {
    hide *;
    ReachedParts(now, policy, resolved);
    var listing := ListingFrom(now, m);
    again := RoundFrom(now, policy, resolved, chunk, listing);
    RoundOnParts(now, policy, resolved, chunk, again);
    QuietIffRestored(now, again);
    var names := SlotOrder(now, again);
    var t := SlotOfObject(now, again, n);
    var u := FirstSlot(now, again, m);
    SlotFacts(now, again, dir, t);
    SlotFacts(now, again, dir, u);
    RestoredFrom(now, again, dir);
    forall j: nat | j < |names| && j != t ensures Losts(now, resolved, names, dir)[j] == [] {
      SlotFacts(now, again, dir, j);
      SlotsDistinct(now, again, j, t);
    }
    NotRefilledAfter(LensOn(SlotsOf(now, again), dir), Items(now, again, dir), chunk, Losts(now, resolved, names, dir), u, t);
    NotRestored(now, again, dir);
  }

  lemma NotRefilledAfter(lens: seq<nat>, items: seq<EndpointInfo>, chunk: nat, lost: seq<seq<EndpointInfo>>, m: nat, t: nat)
    requires m < t < |lens| == |lost| && lost[t] != [] && lens[m] < chunk
    requires forall j :: 0 <= j < |lost| && j != t ==> lost[j] == []
    ensures !Refills(CanonOf, lens, items, chunk, lost)
  {
    hide Refills, CanonOf;
    if Refills(CanonOf, lens, items, chunk, lost) {
      RefillsBefore(CanonOf, lens, items, chunk, lost, m, t);
    }
  }

  /** The slot of the object that is listed first. */
  lemma FirstSlot(now: Objects, again: Round, m: string) returns (u: nat)
    requires RoundValid(now, again) && Reached(now, again.policy, again.resolved) && m in now
    requires again.listing != [] && again.listing[0] == m
    ensures u < |SlotOrder(now, again)| == |SlotsOf(now, again)| && SlotOrder(now, again)[u] == m
    ensures forall k :: 0 <= k < u ==> !IsBare(SlotsOf(now, again)[k]) && IsBare(SlotsOf(now, again)[u])
  {
    hide *;
    ReachedParts(now, again.policy, again.resolved);
    SlotsOrdered(now, again);
    RoundListing(now, again);
    ListsStoreDef(now, again.listing);
    ExistingNotTwice(now, again.policy, again.resolved, again.chunk, again.listing);
    SlotsOfDef(now, again);
    u := ListedFirst(ConfigOf(again.policy, again.chunk), ObjectsListed(now, again.listing), DesiredBy(again.resolved));
    SlotName(now, again, u);
    TrimmedKeepsName(ConfigOf(again.policy, again.chunk), DesiredBy(again.resolved), now[m]);
    StoredName(now, m);
  }

  lemma SlotName(now: Objects, again: Round, u: nat)
    requires RoundValid(now, again) && u < |SlotsOf(now, again)|
    ensures SlotOrder(now, again)[u] == SlotsOf(now, again)[u].name
  {
    hide RoundValid, SlotsOf;
  }

  lemma TrimmedKeepsName<H, R>(cfg: Config<H, R>, d: Desired<R>, o: PolicyObject<H, R>)
    ensures Trimmed(cfg, d, o).name == o.name
  {
  }

  lemma StoredName(now: Objects, n: string)
    requires ValidStore(now) && n in now
    ensures now[n].name == n
  {
    hide ValidSpec;
  }

  // ---------------------------------------------------------------- copies in two objects

  function WithOrder(order: Order, dir: Direction, keys: seq<string>): Order {
    if dir.Ingress? then order.(ingress := keys) else order.(egress := keys)
  }

  lemma SwappedOrder(now: Objects, again: Round, dir: Direction, p: nat, q: nat)
    requires RoundValid(now, again) && p < |OrderOn(again.order, dir)| && q < |OrderOn(again.order, dir)|
    ensures forall n | n in again.listing :: n in now
    ensures ValidOrder(ConfigOf(again.policy, again.chunk), ObjectsListed(now, again.listing), DesiredBy(again.resolved),
              WithOrder(again.order, dir, Swapped(OrderOn(again.order, dir), p, q)))
  {
    hide PlanFor, MergedPlan, Left, DesiredBy, EndpointInfoKey, Ingresses, Egresses, PodLists, Itself, ValidResolved;
    var keys := OrderOn(again.order, dir);
    assert multiset(Swapped(keys, p, q)) == multiset(keys);
  }

  /** The same round with two rules of a direction visited in exchanged order. */
  lemma SwappedRound(now: Objects, again: Round, dir: Direction, p: nat, q: nat) returns (other: Round)
    requires RoundValid(now, again) && p < |OrderOn(again.order, dir)| && q < |OrderOn(again.order, dir)|
    ensures RoundOn(now, again.policy, again.resolved, again.chunk, other) && RoundValid(now, other)
    ensures other.listing == again.listing && SlotsOf(now, other) == SlotsOf(now, again)
    ensures Items(now, other, dir) == Swapped(Items(now, again, dir), p, q)
  {
    hide *;
    SwappedOrder(now, again, dir, p, q);
    RoundListing(now, again);
    other := SomeRound(now, again.policy, again.resolved, again.chunk, again.listing,
      WithOrder(again.order, dir, Swapped(OrderOn(again.order, dir), p, q)));
    RoundOnParts(now, again.policy, again.resolved, again.chunk, other);
    SlotsOfDef(now, again);
    SlotsOfDef(now, other);
    ItemsDef(now, again, dir);
    ItemsDef(now, other, dir);
    WithOrderOn(again.order, dir, Swapped(OrderOn(again.order, dir), p, q));
    LookupSwapped(Wanted(DesiredBy(again.resolved), dir), OrderOn(again.order, dir), p, q);
  }

  lemma WithOrderOn(order: Order, dir: Direction, keys: seq<string>)
    ensures OrderOn(WithOrder(order, dir, keys), dir) == keys
  {
  }

  lemma LookupSwapped<V>(m: map<string, V>, keys: seq<string>, p: nat, q: nat)
    requires (forall k | k in keys :: k in m) && p < |keys| && q < |keys|
    ensures forall k | k in Swapped(keys, p, q) :: k in m
    ensures Lookup(m, Swapped(keys, p, q)) == Swapped(Lookup(m, keys), p, q)
  {
  }

  lemma SameSlotOrder(now: Objects, again: Round, other: Round)
    requires RoundValid(now, again) && RoundValid(now, other) && SlotsOf(now, other) == SlotsOf(now, again)
    ensures SlotOrder(now, other) == SlotOrder(now, again)
  {
    hide RoundValid, SlotsOf;
  }

  /** No two rules that are packed are equal up to order. */
  lemma ItemsDistinct(now: Objects, again: Round, dir: Direction, i: nat, j: nat)
    requires RoundValid(now, again) && Reached(now, again.policy, again.resolved)
    requires i < j < |Items(now, again, dir)|
    ensures CanonOf(Items(now, again, dir)[i]) != CanonOf(Items(now, again, dir)[j])
  {
    var items := Items(now, again, dir);
    hide *;
    StayAndItems(now, again, dir);
    HeldCount(CanonOf(items[i]), RulesWanted(again.resolved, dir));
    CountedInSum(ColumnBag(CanonOf, StayLists(now, again.resolved, SlotOrder(now, again), dir)), Bag(CanonOf, items), CanonOf(items[i]));
    if CanonOf(items[i]) == CanonOf(items[j]) {
      BagPosition(CanonOf, items, i, j);
    }
  }

  lemma CountedInSum<K>(a: multiset<K>, b: multiset<K>, k: K)
    ensures b[k] <= (a + b)[k]
  {
  }

  /** Copies in two objects: of two orders of the map at least one makes a round write. */
  lemma TwoHoldersWrite(now: Objects, policy: Policy, resolved: Resolved, chunk: nat, dir: Direction, n: string, m: string) returns (again: Round)
    requires chunk > 0 && Reached(now, policy, resolved) && n in now && m in now && n != m
    requires HasCopies(now[n], resolved, dir) && HasCopies(now[m], resolved, dir)
    ensures RoundOn(now, policy, resolved, chunk, again) && RoundValid(now, again) && Writing(now, again)
  {
    hide *;
    ReachedParts(now, policy, resolved);
    var listing := StoreListing(now);
    again := RoundFrom(now, policy, resolved, chunk, listing);
    RoundOnParts(now, policy, resolved, chunk, again);
    QuietIffRestored(now, again);
    if !Writing(now, again) {
      var t := SlotOfObject(now, again, n);
      var u := SlotOfObject(now, again, m);
      SlotFacts(now, again, dir, t);
      SlotFacts(now, again, dir, u);
      again := ExchangeWrites(now, again, dir, if t < u then t else u, if t < u then u else t);
    }
  }

  lemma ExchangeWrites(now: Objects, again: Round, dir: Direction, t: nat, u: nat) returns (other: Round)
    requires RoundValid(now, again) && Reached(now, again.policy, again.resolved)
    requires forall n | n in SlotOrder(now, again) :: n in now
    requires Restored(now, again, Ingress) && Restored(now, again, Egress)
    requires t < u < |SlotOrder(now, again)|
    requires Losts(now, again.resolved, SlotOrder(now, again), dir)[t] != []
    requires Losts(now, again.resolved, SlotOrder(now, again), dir)[u] != []
    ensures RoundOn(now, again.policy, again.resolved, again.chunk, other) && RoundValid(now, other) && Writing(now, other)
  {
    hide *;
    LensOnSize(SlotsOf(now, again), dir);
    RestoredFrom(now, again, dir);
    BothRestored(now, again, dir);
    var lens, items, losts := LensOn(SlotsOf(now, again), dir), Items(now, again, dir), Losts(now, again.resolved, SlotOrder(now, again), dir);
    var p := LostPosition(CanonOf, lens, items, again.chunk, losts, t);
    var q := LostPosition(CanonOf, lens, items, again.chunk, losts, u);
    forall i: nat, j: nat | i < j < |items| ensures CanonOf(items[i]) != CanonOf(items[j]) {
      ItemsDistinct(now, again, dir, i, j);
    }
    RefillsNotSwapped(CanonOf, lens, items, again.chunk, losts, t, u, p, q);
    other := SwappedRound(now, again, dir, p, q);
    RoundOnParts(now, again.policy, again.resolved, again.chunk, other);
    SameSlotOrder(now, again, other);
    QuietIffRestored(now, other);
    RestoredFrom(now, other, dir);
    NotRestored(now, other, dir);
  }

  lemma BothRestored(now: Objects, again: Round, dir: Direction)
    requires RoundValid(now, again) && (forall n | n in SlotOrder(now, again) :: n in now)
    requires Restored(now, again, Ingress) && Restored(now, again, Egress)
    ensures Restored(now, again, dir)
  {
    hide RoundValid, SlotOrder, Restored;
  }

  // ---------------------------------------------------------------- exactly when rounds are quiet

  ghost predicate SomeRoundWrites(now: Objects, policy: Policy, resolved: Resolved, chunk: nat) {
    exists again :: RoundOn(now, policy, resolved, chunk, again) && Writing(now, again)
  }

  lemma SomeRoundWritesDef(now: Objects, policy: Policy, resolved: Resolved, chunk: nat, again: Round)
    requires RoundOn(now, policy, resolved, chunk, again) && RoundValid(now, again) && Writing(now, again)
    ensures SomeRoundWrites(now, policy, resolved, chunk)
  {
    hide RoundOn, RoundValid, Writing;
  }

  /** A store that does not rest in some direction has a round that writes. */
  lemma RestlessWrites(now: Objects, policy: Policy, resolved: Resolved, chunk: nat, dir: Direction)
    requires chunk > 0 && Reached(now, policy, resolved) && !RestsOn(now, resolved, chunk, dir)
    ensures SomeRoundWrites(now, policy, resolved, chunk)
  {
    hide Reached, RoundOn, RoundValid, Writing, HasCopies, LeftBare, RulesOf, SomeRoundWrites;
    var n :| n in now && HasCopies(now[n], resolved, dir) && !(
      && |RulesOf(now[n], dir)| <= chunk
      && forall m | m in now && m != n ::
           && !HasCopies(now[m], resolved, dir)
           && (|RulesOf(now[m], dir)| >= chunk || (LeftBare(now[m], resolved) && !LeftBare(now[n], resolved))));
    var again: Round;
    if |RulesOf(now[n], dir)| > chunk {
      again := OverfullWrites(now, policy, resolved, chunk, dir, n);
    } else if m :| m in now && m != n && HasCopies(now[m], resolved, dir) {
      again := TwoHoldersWrite(now, policy, resolved, chunk, dir, n, m);
    } else {
      var m :| m in now && m != n && |RulesOf(now[m], dir)| < chunk && !(LeftBare(now[m], resolved) && !LeftBare(now[n], resolved));
      again := RoomyFirstWrites(now, policy, resolved, chunk, dir, n, m);
    }
    SomeRoundWritesDef(now, policy, resolved, chunk, again);
  }

  lemma RestingQuiet(now: Objects, again: Round)
    requires RoundValid(now, again) && Reached(now, again.policy, again.resolved)
    requires Resting(now, again.resolved, again.chunk)
    ensures !Writing(now, again)
  {
    hide RoundValid, Reached, Writing, RestsOn, SlotOrder, Restored;
    RestingRestored(now, again, Ingress);
    RestingRestored(now, again, Egress);
    QuietIffRestored(now, again);
  }

  /** A store that holds the desired endpoints up to order has a round that writes exactly when it
      does not rest. */
  lemma WritesExactly(now: Objects, policy: Policy, resolved: Resolved, chunk: nat)
    requires chunk > 0 && Reached(now, policy, resolved)
    ensures SomeRoundWrites(now, policy, resolved, chunk) <==> !Resting(now, resolved, chunk)
  {
    hide Reached, RestsOn, RoundValid, Writing;
    if !RestsOn(now, resolved, chunk, Ingress) {
      RestlessWrites(now, policy, resolved, chunk, Ingress);
    } else if !RestsOn(now, resolved, chunk, Egress) {
      RestlessWrites(now, policy, resolved, chunk, Egress);
    } else {
      forall again | RoundOn(now, policy, resolved, chunk, again) ensures !Writing(now, again) {
        RestingQuiet(now, again);
      }
    }
  }

  // ---------------------------------------------------------------- after a complete round

  /** `again` is a further round with the same policy and endpoints, after round `r`. */
  ghost predicate Repeats(s: Objects, r: Round, again: Round) {
    && RoundValid(s, r) && RoundValid(StoreAfter(s, r), again)
    && again.policy == r.policy && again.chunk == r.chunk && again.resolved == r.resolved
  }

  lemma RepeatsDef(s: Objects, r: Round, again: Round)
    requires RoundValid(s, r)
    ensures Repeats(s, r, again) <==> RoundOn(StoreAfter(s, r), r.policy, r.resolved, r.chunk, again)
    ensures Repeats(s, r, again) ==> RoundValid(StoreAfter(s, r), again) && |again.names| == |again.plan.create|
    ensures Repeats(s, r, again) ==> (Writing(StoreAfter(s, r), again) <==> Writes(StoreAfter(s, r), again) != [])
  {
    hide RoundValid, StoreAfter, Writes;
    if Repeats(s, r, again) {
      WritingDef(StoreAfter(s, r), again);
    }
  }

  /** Quiescence: after a complete round from any store, all further rounds with the same policy
      and endpoints write nothing, for every order of listing and map iteration, if and only if
      the store it left rests; provided no two desired rules of a direction would be merged. */
  lemma QuietExactly(s: Objects, r: Round)
    requires ValidStore(s) && RoundValid(s, r) && Apart(r.resolved)
    ensures forall again | Repeats(s, r, again) :: |again.names| == |again.plan.create|
    ensures (forall again | Repeats(s, r, again) :: Writes(StoreAfter(s, r), again) == []) <==>
            Resting(StoreAfter(s, r), r.resolved, r.chunk)
  {
    var now := StoreAfter(s, r);
    RoundReaches(s, r);
    RoundListing(s, r);
    WritesExactly(now, r.policy, r.resolved, r.chunk);
    hide RoundValid, StoreAfter, Resting, Reached, RoundOn, Writing, Writes, Repeats, ValidStore, Apart, ValidResolved;
    forall again ensures Repeats(s, r, again) <==> RoundOn(now, r.policy, r.resolved, r.chunk, again)
      ensures Repeats(s, r, again) ==> RoundValid(now, again) && |again.names| == |again.plan.create| && (Writing(now, again) <==> Writes(now, again) != [])
    {
      RepeatsDef(s, r, again);
    }
  }

  // ---------------------------------------------------------------- stores without copies

  /** No stored rule is a desired rule with its ports or exceptions in another order. */
  ghost predicate NoReorderedCopies(s: Objects, resolved: Resolved) {
    forall n, dir | n in s :: !HasCopies(s[n], resolved, dir)
  }

  lemma NoCopiesRest(now: Objects, resolved: Resolved, chunk: nat)
    requires NoReorderedCopies(now, resolved)
    ensures Resting(now, resolved, chunk)
  {
    hide HasCopies, LeftBare, RulesOf;
  }

  lemma RepeatsRound(s: Objects, r: Round, again: Round)
    requires Repeats(s, r, again)
    ensures RoundValid(s, r) && RoundValid(StoreAfter(s, r), again)
  {
    hide RoundValid, StoreAfter;
  }

  /** A store without reordered copies rests, so that a second round writes nothing at all. */
  lemma SecondRoundWritesNothing(s: Objects, r: Round, again: Round)
    requires ValidStore(s) && Repeats(s, r, again) && Apart(r.resolved)
    requires NoReorderedCopies(StoreAfter(s, r), r.resolved)
    ensures |again.names| == |again.plan.create| && Writes(StoreAfter(s, r), again) == []
  {
    hide *;
    RepeatsRound(s, r, again);
    NoCopiesRest(StoreAfter(s, r), r.resolved, r.chunk);
    QuietExactly(s, r);
  }
}
