/** Further rounds with the same desired endpoints settle: every round that writes replaces at
    least one object with reordered copies and makes no new ones. */
module Settling {
  import opened Basics
  import opened PolicyInfo
  import opened Packing
  import opened Combine
  import opened Reconciler
  import opened Placement
  import opened Equality
  import opened Store
  import opened WriteEffects
  import opened Convergence
  import opened RoundResult
  import opened Refilling
  import opened ReorderedCopies
  import opened QuietRounds
  import opened Quiescence

  /** The objects that hold reordered copies of desired rules. */
  ghost function CopyHolders(now: Objects, resolved: Resolved): set<string> {
    set n | n in now && (HasCopies(now[n], resolved, Ingress) || HasCopies(now[n], resolved, Egress))
  }

  // ---------------------------------------------------------------- rounds make no copies

  lemma DesiredIsNoCopy(resolved: Resolved, dir: Direction, x: EndpointInfo)
    requires Apart(resolved) && x in RulesWanted(resolved, dir)
    ensures !ReorderedCopy(x, RulesWanted(resolved, dir))
  {
    hide RulesWanted, CanonOf, Apart, NoSharedIdentity;
    ApartOn(resolved, dir);
    var wanted := RulesWanted(resolved, dir);
    forall e | e in wanted && CanonOf(x) == CanonOf(e) ensures x == e {
      SameCanonSameRule(x, e, wanted);
    }
  }

  lemma PlannedHasNoCopies(s: Objects, r: Round, o: PolicyEndpoint, m: PolicyEndpoint, dir: Direction)
    requires ValidStore(s) && RoundValid(s, r) && Apart(r.resolved) && o in Surviving(PlanOf(s, r)) && MergedObject(o, m)
    ensures !HasCopies(m, r.resolved, dir)
  {
    hide ValidStore, RoundValid, Apart, PlanOf, Surviving, MergedObject, RulesWanted, RulesOf, ReorderedCopy;
    ApartOn(r.resolved, dir);
    MergedReorders(s, r, o, m, dir);
    forall x | x in RulesOf(m, dir) ensures !ReorderedCopy(x, RulesWanted(r.resolved, dir)) {
      assert x in multiset(RulesOf(m, dir)) && x in multiset(RulesOf(o, dir));
      SurvivorRule(s, r, o, dir, x);
      DesiredIsNoCopy(r.resolved, dir, x);
    }
  }

  lemma RenamedCopies(m: PolicyEndpoint, n: string, resolved: Resolved, dir: Direction)
    ensures HasCopies(m.(name := n), resolved, dir) == HasCopies(m, resolved, dir)
  {
    assert RulesOf(m.(name := n), dir) == RulesOf(m, dir);
    hide RulesOf, ReorderedCopy;
  }

  /** An object that holds copies after a round is one whose update was skipped. */
  lemma CopiesWereThere(s: Objects, r: Round, n: string, dir: Direction) returns (i: nat)
    requires ValidStore(s) && RoundValid(s, r) && Apart(r.resolved)
    requires n in StoreAfter(s, r) && HasCopies(StoreAfter(s, r)[n], r.resolved, dir)
    ensures n in s && StoreAfter(s, r)[n] == s[n]
    ensures i < |r.plan.update| && r.plan.update[i].name == n && SpecEqual(s[n], r.plan.update[i])
  {
    hide *;
    RoundSizes(s, r);
    RoundNames(s, r);
    PlanSizes(s, r);
    StoreAfterDef(s, r);
    OnlySurvivors(s, r, n);
    if n in r.names {
      var k: nat :| k < |r.names| && r.names[k] == n;
      CreatedInStore(s, r, k);
      CreateSurvives(PlanOf(s, r), k);
      PlannedHasNoCopies(s, r, PlanOf(s, r).create[k], r.plan.create[k], dir);
      RenamedCopies(r.plan.create[k], n, r.resolved, dir);
      assert false;
    } else {
      i := UpdateNamed(r.plan.update, n);
      UpdatedInStore(s, r, i);
      SurvivesUpdate(PlanOf(s, r), PlanOf(s, r).update[i]);
      PlannedHasNoCopies(s, r, PlanOf(s, r).update[i], r.plan.update[i], dir);
      UpdatedOrSkipped(s, StoreAfter(s, r), r.plan.update[i]);
    }
  }

  lemma CreateSurvives(p: Plan<PolicyHeader, EndpointInfo>, k: nat)
    requires k < |p.create|
    ensures p.create[k] in Surviving(p)
  {
  }

  lemma UpdateNamed(update: seq<PolicyEndpoint>, n: string) returns (i: nat)
    requires HasName(update, n)
    ensures i < |update| && update[i].name == n
  {
    i :| i < |update| && update[i].name == n;
  }

  lemma UpdatedOrSkipped(s: Objects, now: Objects, u: PolicyEndpoint)
    requires UpdatedIn(s, now, u)
    ensures u.name in now && u.name in s
    ensures now[u.name] == u || (now[u.name] == s[u.name] && SpecEqual(s[u.name], u))
  {
    hide SpecEqual;
  }

  /** Rounds make no copies: a store without them stays without them. */
  lemma NoCopiesKept(s: Objects, r: Round)
    requires ValidStore(s) && RoundValid(s, r) && Apart(r.resolved)
    requires NoReorderedCopies(s, r.resolved)
    ensures NoReorderedCopies(StoreAfter(s, r), r.resolved)
  {
    hide RoundValid, ValidStore, Apart, StoreAfter, HasCopies, SpecEqual;
    forall n, dir | n in StoreAfter(s, r) ensures !HasCopies(StoreAfter(s, r)[n], r.resolved, dir) {
      if HasCopies(StoreAfter(s, r)[n], r.resolved, dir) {
        var i := CopiesWereThere(s, r, n, dir);
        assert false;
      }
    }
  }

  // ---------------------------------------------------------------- a round that writes replaces copies

  /** Lists that are at least as long together as others, and nowhere shorter, when they are not
      longer together. */
  lemma {:induction false} DominatedColumns<T, K>(g: T -> K, a: seq<seq<T>>, b: seq<seq<T>>)
    requires |a| == |b| && forall j :: 0 <= j < |a| ==> |a[j]| >= |b[j]|
    ensures |ColumnBag(g, a)| >= |ColumnBag(g, b)|
    ensures |ColumnBag(g, a)| <= |ColumnBag(g, b)| ==> forall j :: 0 <= j < |a| ==> |a[j]| == |b[j]|
  {
    hide Bag;
    if a != [] {
      var n := |a| - 1;
      DominatedColumns(g, a[..n], b[..n]);
      BagSize(g, a[n]);
      BagSize(g, b[n]);
      assert forall j :: 0 <= j < n ==> a[..n][j] == a[j] && b[..n][j] == b[j];
    }
  }

  lemma SlicesWithin<T, K>(g: T -> K, lens: seq<nat>, items: seq<T>, chunk: nat)
    ensures |ColumnBag(g, Slices(lens, items, chunk))| <= |items|
  {
    var slices, e := Slices(lens, items, chunk), Offset(lens, |items|, chunk, |lens|);
    hide *;
    SlicesBag(g, lens, items, chunk, |lens|);
    assert slices[..|lens|] == slices;
    BagSize(g, items[..e]);
  }

  lemma SliceDominates<T, K>(g: T -> K, slice: seq<T>, lost: seq<T>)
    requires lost != [] ==> Bag(g, slice) == Bag(g, lost)
    ensures |slice| >= |lost|
    ensures |slice| == |lost| ==> Bag(g, slice) == Bag(g, lost)
  {
    hide Bag;
    BagSize(g, slice);
    BagSize(g, lost);
  }

  lemma SlicesAt<T>(lens: seq<nat>, items: seq<T>, chunk: nat)
    ensures |Slices(lens, items, chunk)| == |lens|
    ensures forall j: nat | j < |lens| :: Slices(lens, items, chunk)[j] == Slice(lens, items, chunk, j)
  {
    hide Slice;
  }

  lemma RefillsDef<T(!new), K>(g: T -> K, lens: seq<nat>, items: seq<T>, chunk: nat, lost: seq<seq<T>>)
    requires |lost| == |lens| && forall j: nat | j < |lens| :: Bag(g, Slice(lens, items, chunk, j)) == Bag(g, lost[j])
    ensures Refills(g, lens, items, chunk, lost)
  {
    hide Slice, Bag;
  }

  /** If every slot that lost something gets it back, the others get nothing. */
  lemma RefillsFromHolders<T(!new), K>(g: T -> K, lens: seq<nat>, items: seq<T>, chunk: nat, lost: seq<seq<T>>)
    requires |lens| == |lost| && Bag(g, items) == ColumnBag(g, lost)
    requires forall j: nat | j < |lens| && lost[j] != [] :: Bag(g, Slice(lens, items, chunk, j)) == Bag(g, lost[j])
    ensures Refills(g, lens, items, chunk, lost)
  {
    var slices := Slices(lens, items, chunk);
    hide *;
    SlicesAt(lens, items, chunk);
    forall j: nat | j < |lens| ensures |slices[j]| >= |lost[j]| && (|slices[j]| == |lost[j]| ==> Bag(g, slices[j]) == Bag(g, lost[j])) {
      SliceDominates(g, slices[j], lost[j]);
    }
    SlicesWithin(g, lens, items, chunk);
    BagSize(g, items);
    DominatedColumns(g, slices, lost);
    RefillsDef(g, lens, items, chunk, lost);
  }

  /** A round that writes leaves some object with copies short of what it lost. */
  lemma ShortHolder(now: Objects, again: Round) returns (j: nat, dir: Direction)
    requires RoundValid(now, again) && Reached(now, again.policy, again.resolved) && Writing(now, again)
    ensures j < |SlotOrder(now, again)| == |SlotsOf(now, again)| && SlotOrder(now, again)[j] in now
    ensures HasCopies(now[SlotOrder(now, again)[j]], again.resolved, dir) && !SlotSame(now, again, j)
  {
    hide *;
    QuietIffRestored(now, again);
    dir := if Restored(now, again, Ingress) then Egress else Ingress;
    j := ShortSlot(now, again, dir);
    SlotFacts(now, again, dir, j);
    SlotsOrdered(now, again);
    ReachedParts(now, again.policy, again.resolved);
    LensOnSize(SlotsOf(now, again), Ingress);
    LensOnSize(SlotsOf(now, again), Egress);
    SlotSameOrBack(now, again, j);
    OneNotBack(now, again, j, dir);
  }

  lemma OneNotBack(now: Objects, again: Round, j: nat, dir: Direction)
    requires RoundValid(now, again) && (forall n | n in SlotOrder(now, again) :: n in now)
    requires j < |SlotsOf(now, again)| == |LensOn(SlotsOf(now, again), Ingress)| == |LensOn(SlotsOf(now, again), Egress)|
    requires |LensOn(SlotsOf(now, again), dir)| == |SlotsOf(now, again)| && !SlotBack(now, again, j, dir)
    ensures !(SlotBack(now, again, j, Ingress) && SlotBack(now, again, j, Egress))
  {
    hide RoundValid, SlotOrder, SlotsOf, LensOn, SlotBack;
  }

  lemma ShortSlot(now: Objects, again: Round, dir: Direction) returns (j: nat)
    requires RoundValid(now, again) && Reached(now, again.policy, again.resolved)
    requires (forall n | n in SlotOrder(now, again) :: n in now) && !Restored(now, again, dir)
    ensures |LensOn(SlotsOf(now, again), dir)| == |SlotsOf(now, again)| == |SlotOrder(now, again)|
    ensures j < |SlotsOf(now, again)| && Losts(now, again.resolved, SlotOrder(now, again), dir)[j] != []
    ensures !SlotBack(now, again, j, dir)
  {
    hide RoundValid, Reached, SlotOrder, SlotsOf, LensOn, Items, Lost, Slice, Bag, ColumnBag, CanonOf, Restored, Refills;
    LensOnSize(SlotsOf(now, again), dir);
    assert |SlotOrder(now, again)| == |SlotsOf(now, again)|;
    ItemsAreLost(now, again, dir);
    RestoredFrom(now, again, dir);
    var lens, items, losts := LensOn(SlotsOf(now, again), dir), Items(now, again, dir), Losts(now, again.resolved, SlotOrder(now, again), dir);
    if forall k: nat | k < |lens| && losts[k] != [] :: Bag(CanonOf, Slice(lens, items, again.chunk, k)) == Bag(CanonOf, losts[k]) {
      RefillsFromHolders(CanonOf, lens, items, again.chunk, losts);
      assert false;
    }
    j :| j < |lens| && losts[j] != [] && Bag(CanonOf, Slice(lens, items, again.chunk, j)) != Bag(CanonOf, losts[j]);
  }

  lemma CopyHolderDef(now: Objects, resolved: Resolved, n: string)
    ensures n in CopyHolders(now, resolved) <==>
            n in now && (HasCopies(now[n], resolved, Ingress) || HasCopies(now[n], resolved, Egress))
  {
    hide HasCopies;
  }

  lemma HoldsInDirection(o: PolicyEndpoint, resolved: Resolved, dir: Direction)
    requires HasCopies(o, resolved, dir)
    ensures HasCopies(o, resolved, Ingress) || HasCopies(o, resolved, Egress)
  {
    hide HasCopies;
  }

  lemma HoldersKept(s: Objects, r: Round, n: string)
    requires ValidStore(s) && RoundValid(s, r) && Apart(r.resolved) && n in CopyHolders(StoreAfter(s, r), r.resolved)
    ensures n in CopyHolders(s, r.resolved) && n in s
    ensures exists i: nat :: i < |r.plan.update| && r.plan.update[i].name == n && SpecEqual(s[n], r.plan.update[i])
  {
    hide *;
    var now := StoreAfter(s, r);
    CopyHolderDef(now, r.resolved, n);
    CopyHolderDef(s, r.resolved, n);
    var i := CopiesWereThere(s, r, n, if HasCopies(now[n], r.resolved, Ingress) then Ingress else Egress);
  }

  /** A skipped update means that the slot holds what is stored. */
  lemma SkippedIsSame(now: Objects, again: Round, i: nat, j: nat)
    requires RoundValid(now, again) && Reached(now, again.policy, again.resolved)
    requires i < |again.plan.update| && j < |SlotOrder(now, again)| == |SlotsOf(now, again)|
    requires again.plan.update[i].name == SlotOrder(now, again)[j] && SlotOrder(now, again)[j] in now
    requires SpecEqual(now[SlotOrder(now, again)[j]], again.plan.update[i])
    ensures SlotSame(now, again, j)
  {
    hide *;
    SlotsOrdered(now, again);
    ReachedParts(now, again.policy, again.resolved);
    PlanSizes(now, again);
    var o, m := PlanOf(now, again).update[i], again.plan.update[i];
    var modified, candidates, created := PlanFromSlots(now, again);
    UpdateFromSlots(ConfigOf(again.policy, again.chunk), modified, candidates, created, o);
    var k := SlotIndex(now, again, modified + candidates, o);
    PackedRest(now, again, k);
    MergedName(o, m);
    if k != j {
      SlotsDistinct(now, again, k, j);
    }
    SkippedExactly(now, again, j, m);
    SlotSameDef(now, again, j);
  }

  lemma UpdateFromSlots<H, R>(
    cfg: Config<H, R>, modified: seq<PolicyObject<H, R>>, candidates: seq<PolicyObject<H, R>>,
    created: seq<PolicyObject<H, R>>, u: PolicyObject<H, R>)
    requires u in Finish(cfg, modified, candidates, created).update
    ensures u in modified + candidates
  {
    FinishMembers(cfg, modified, candidates, created, u);
  }

  /** Every further round leaves at most the copies that were there, and a round that writes
      replaces those of at least one object. */
  lemma HoldersShrink(now: Objects, again: Round)
    requires RoundValid(now, again) && Reached(now, again.policy, again.resolved)
    ensures CopyHolders(StoreAfter(now, again), again.resolved) <= CopyHolders(now, again.resolved)
    ensures Writing(now, again) ==> CopyHolders(StoreAfter(now, again), again.resolved) < CopyHolders(now, again.resolved)
  {
    hide *;
    ReachedParts(now, again.policy, again.resolved);
    forall n | n in CopyHolders(StoreAfter(now, again), again.resolved) ensures n in CopyHolders(now, again.resolved) {
      HoldersKept(now, again, n);
    }
    if Writing(now, again) {
      var j, dir := ShortHolder(now, again);
      var n := SlotOrder(now, again)[j];
      HoldsInDirection(now[n], again.resolved, dir);
      CopyHolderDef(now, again.resolved, n);
      NoLongerHolder(now, again, j);
      assert n in CopyHolders(now, again.resolved) && n !in CopyHolders(StoreAfter(now, again), again.resolved);
    }
  }

  lemma NoLongerHolder(now: Objects, again: Round, j: nat)
    requires RoundValid(now, again) && Reached(now, again.policy, again.resolved)
    requires j < |SlotOrder(now, again)| == |SlotsOf(now, again)| && SlotOrder(now, again)[j] in now && !SlotSame(now, again, j)
    ensures SlotOrder(now, again)[j] !in CopyHolders(StoreAfter(now, again), again.resolved)
  {
    hide *;
    ReachedParts(now, again.policy, again.resolved);
    var n := SlotOrder(now, again)[j];
    forall i: nat | i < |again.plan.update| && again.plan.update[i].name == n ensures !SpecEqual(now[n], again.plan.update[i]) {
      if SpecEqual(now[n], again.plan.update[i]) {
        SkippedIsSame(now, again, i, j);
      }
    }
    if n in CopyHolders(StoreAfter(now, again), again.resolved) {
      HoldersKept(now, again, n);
      assert false;
    }
  }

  // ---------------------------------------------------------------- runs of rounds

  /** Consecutive complete rounds of one policy with the same desired endpoints. */
  ghost predicate Rounds(now: Objects, policy: Policy, resolved: Resolved, chunk: nat, run: seq<Round>)
    decreases |run|
  {
    run == [] ||
    (RoundOn(now, policy, resolved, chunk, run[0]) && Rounds(StoreAfter(now, run[0]), policy, resolved, chunk, run[1..]))
  }

  /** How many rounds of the run write anything. */
  ghost function WritingRounds(now: Objects, policy: Policy, resolved: Resolved, chunk: nat, run: seq<Round>): nat
    requires Rounds(now, policy, resolved, chunk, run)
    decreases |run|
  {
    if run == [] then 0 else
      (if Writing(now, run[0]) then 1 else 0) + WritingRounds(StoreAfter(now, run[0]), policy, resolved, chunk, run[1..])
  }

  lemma RunStep(now: Objects, policy: Policy, resolved: Resolved, chunk: nat, run: seq<Round>)
    requires Rounds(now, policy, resolved, chunk, run) && run != []
    ensures RoundOn(now, policy, resolved, chunk, run[0]) && RoundValid(now, run[0])
    ensures run[0].policy == policy && run[0].resolved == resolved && run[0].chunk == chunk
    ensures Rounds(StoreAfter(now, run[0]), policy, resolved, chunk, run[1..])
    ensures WritingRounds(now, policy, resolved, chunk, run) ==
            (if Writing(now, run[0]) then 1 else 0) + WritingRounds(StoreAfter(now, run[0]), policy, resolved, chunk, run[1..])
  {
    hide RoundValid, StoreAfter, Writing;
  }

  lemma SmallerSet<T>(a: set<T>, b: set<T>)
    requires a <= b
    ensures |a| <= |b|
    ensures a < b ==> |a| < |b|
  {
    assert b == a + (b - a);
  }

  /** Once a complete round has reached the desired endpoints, at most as many further rounds
      write as objects hold reordered copies, whatever the orders of listing and map iteration;
      all others are quiet. */
  lemma {:induction false} WritingRoundsBounded(now: Objects, policy: Policy, resolved: Resolved, chunk: nat, run: seq<Round>)
    requires Reached(now, policy, resolved) && Rounds(now, policy, resolved, chunk, run)
    ensures WritingRounds(now, policy, resolved, chunk, run) <= |CopyHolders(now, resolved)|
    decreases |run|
  {
    hide *;
    if run == [] {
      NoRounds(now, policy, resolved, chunk);
    } else {
      RunStep(now, policy, resolved, chunk, run);
      var next := StoreAfter(now, run[0]);
      ReachedParts(now, policy, resolved);
      RoundReaches(now, run[0]);
      HoldersShrink(now, run[0]);
      SmallerSet(CopyHolders(next, resolved), CopyHolders(now, resolved));
      WritingRoundsBounded(next, policy, resolved, chunk, run[1..]);
    }
  }

  lemma NoRounds(now: Objects, policy: Policy, resolved: Resolved, chunk: nat)
    ensures Rounds(now, policy, resolved, chunk, []) && WritingRounds(now, policy, resolved, chunk, []) == 0
  {
  }

  /** The same from any store: after a first complete round, at most as many of the following
      rounds write as objects held reordered copies to begin with. */
  lemma RoundsSettle(s: Objects, r: Round, run: seq<Round>)
    requires ValidStore(s) && RoundValid(s, r) && Apart(r.resolved)
    requires Rounds(StoreAfter(s, r), r.policy, r.resolved, r.chunk, run)
    ensures WritingRounds(StoreAfter(s, r), r.policy, r.resolved, r.chunk, run) <= |CopyHolders(s, r.resolved)|
  {
    hide *;
    RoundReaches(s, r);
    WritingRoundsBounded(StoreAfter(s, r), r.policy, r.resolved, r.chunk, run);
    forall n | n in CopyHolders(StoreAfter(s, r), r.resolved) ensures n in CopyHolders(s, r.resolved) {
      HoldersKept(s, r, n);
    }
    SmallerSet(CopyHolders(StoreAfter(s, r), r.resolved), CopyHolders(s, r.resolved));
  }
}
