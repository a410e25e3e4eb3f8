/** Traffic that is admitted before a round and desired: exactly when it is admitted at every
    prefix of the round's writes. */
module UpdateGaps {
  import opened Basics
  import opened PolicyInfo
  import opened Reconciler
  import opened Placement
  import opened Equality
  import opened Store
  import opened WriteEffects
  import opened Convergence

  // ---------------------------------------------------------------- positions in the writes

  /** How many writes come before the update at index `t` is looked at. */
  ghost function Point(s: Objects, r: Round, t: nat): nat
    requires |r.names| == |r.plan.create| && t <= |r.plan.update|
  {
    |CreateWrites(r.plan.create, r.names)| + |UpdateWrites(s, r.plan.update[..t])|
  }

  lemma PointMonotone(s: Objects, r: Round, i: nat, j: nat)
    requires |r.names| == |r.plan.create| && i <= j <= |r.plan.update|
    ensures Point(s, r, i) <= Point(s, r, j)
    ensures Point(s, r, 0) == |CreateWrites(r.plan.create, r.names)|
  {
    hide UpdateWrite, CreateWrites;
    UpdateWritesPrefix(s, r.plan.update[..j], i);
    assert r.plan.update[..j][..i] == r.plan.update[..i];
  }

  lemma PointNext(s: Objects, r: Round, t: nat)
    requires |r.names| == |r.plan.create| && t < |r.plan.update|
    ensures Point(s, r, t + 1) <= Point(s, r, t) + 1
  {
    hide CreateWrites, SpecEqual;
    UpdateWritesPrefix(s, r.plan.update, t);
  }

  lemma PointWithin(s: Objects, r: Round, t: nat)
    requires |r.names| == |r.plan.create| && t <= |r.plan.update|
    ensures Point(s, r, t) <= |Writes(s, r)|
    ensures Writes(s, r)[..Point(s, r, t)] == CreateWrites(r.plan.create, r.names) + UpdateWrites(s, r.plan.update[..t])
  {
    hide CreateWrites, UpdateWrites, DeleteWrites, UpdateWrite;
    UpdateWritesPrefix(s, r.plan.update, t);
  }

  /** Writes before that point are creates or earlier updates. */
  lemma WritesBefore(s: Objects, r: Round, k: nat, t: nat, w: Write)
    requires |r.names| == |r.plan.create| && t <= |r.plan.update| && k <= Point(s, r, t)
    ensures k <= |Writes(s, r)|
    ensures w in Writes(s, r)[..k] ==>
              || (exists i :: 0 <= i < |r.names| && w == Put(r.names[i], r.plan.create[i].(name := r.names[i])))
              || (exists i :: 0 <= i < t && w in UpdateWrite(s, r.plan.update[i]))
  {
    PointWithin(s, r, t);
    hide CreateWrites, UpdateWrites, DeleteWrites, UpdateWrite, Writes, Point;
    CreateWritesMembers(r.plan.create, r.names, w);
    UpdateWritesMembers(s, r.plan.update[..t], w);
    var p := Point(s, r, t);
    if w in Writes(s, r)[..k] {
      var i :| 0 <= i < k && Writes(s, r)[..k][i] == w;
      assert Writes(s, r)[..p][i] == w;
    }
  }

  /** After that point all creates and earlier updates are among the writes done. */
  lemma WritesAfter(s: Objects, r: Round, k: nat, t: nat, w: Write)
    requires |r.names| == |r.plan.create| && t <= |r.plan.update| && Point(s, r, t) <= k <= |Writes(s, r)|
    requires w in CreateWrites(r.plan.create, r.names) || w in UpdateWrites(s, r.plan.update[..t])
    ensures w in Writes(s, r)[..k]
  {
    PointWithin(s, r, t);
    hide CreateWrites, UpdateWrites, DeleteWrites, UpdateWrite, Writes, Point;
    var p := Point(s, r, t);
    assert Writes(s, r)[..p] <= Writes(s, r)[..k];
    assert w in Writes(s, r)[..p];
  }

  // ---------------------------------------------------------------- the objects at a prefix

  ghost function AfterWrites(s: Objects, r: Round, k: nat): Objects
    requires |r.names| == |r.plan.create| && k <= |Writes(s, r)|
  {
    ApplyAll(s, Writes(s, r)[..k])
  }

  /** A stored name that no write so far concerns. */
  lemma Untouched(s: Objects, r: Round, k: nat, n: string)
    requires |r.names| == |r.plan.create| && k <= |Writes(s, r)| && n in s
    requires forall w | w in Writes(s, r)[..k] :: w.name != n
    ensures n in AfterWrites(s, r, k) && AfterWrites(s, r, k)[n] == s[n]
  {
    hide Writes, ApplyAll;
    EffectOn(s, Writes(s, r)[..k], n);
  }

  lemma CreateNameFresh(s: Objects, r: Round, i: nat, n: string)
    requires FreshNames(s, r.names) && i < |r.names| && n in s
    ensures r.names[i] != n
  {
  }

  lemma UpdateWriteName(s: Objects, u: PolicyEndpoint, w: Write)
    requires w in UpdateWrite(s, u)
    ensures w == Put(u.name, u)
  {
    hide SpecEqual;
  }

  lemma NamesDiffer(s: Objects, r: Round, i: nat, j: nat)
    requires NamesApart(s, r.plan.update, r.plan.delete) && i < j < |r.plan.update|
    ensures r.plan.update[i].name != r.plan.update[j].name && r.plan.update[j].name in s
  {
  }

  lemma DeleteNameApart(s: Objects, r: Round, i: nat, d: nat)
    requires NamesApart(s, r.plan.update, r.plan.delete) && d < |r.plan.delete|
    ensures r.plan.delete[d].name in s
    ensures i < |r.plan.update| ==> r.plan.update[i].name != r.plan.delete[d].name
  {
  }

  /** Until all objects are created nothing stored has changed. */
  lemma StoredUntilCreated(s: Objects, r: Round, k: nat, n: string)
    requires ValidStore(s) && RoundValid(s, r) && |r.names| == |r.plan.create| && k <= Point(s, r, 0) && n in s
    ensures k <= |Writes(s, r)| && n in AfterWrites(s, r, k) && AfterWrites(s, r, k)[n] == s[n]
  {
    hide *;
    RoundSizes(s, r);
    PointWithin(s, r, 0);
    forall w | w in Writes(s, r)[..k] ensures w.name != n {
      WritesBefore(s, r, k, 0, w);
      var i: nat :| i < |r.names| && w == Put(r.names[i], r.plan.create[i].(name := r.names[i]));
      CreateNameFresh(s, r, i, n);
    }
    Untouched(s, r, k, n);
  }

  /** An object is as it was stored until its own update. */
  lemma StoredUntilUpdated(s: Objects, r: Round, k: nat, j: nat)
    requires ValidStore(s) && RoundValid(s, r) && |r.names| == |r.plan.create| && j < |r.plan.update| && k <= Point(s, r, j)
    ensures k <= |Writes(s, r)| && r.plan.update[j].name in s && r.plan.update[j].name in AfterWrites(s, r, k)
    ensures AfterWrites(s, r, k)[r.plan.update[j].name] == s[r.plan.update[j].name]
  {
    hide *;
    RoundSizes(s, r);
    RoundNames(s, r);
    PointWithin(s, r, j);
    var n := r.plan.update[j].name;
    UpdatesInStore(s, r, j);
    forall w | w in Writes(s, r)[..k] ensures w.name != n {
      WritesBefore(s, r, k, j, w);
      if i: nat :| i < |r.names| && w == Put(r.names[i], r.plan.create[i].(name := r.names[i])) {
        CreateNameFresh(s, r, i, n);
      } else {
        var i: nat :| i < j && w in UpdateWrite(s, r.plan.update[i]);
        UpdateWriteName(s, r.plan.update[i], w);
        NamesDiffer(s, r, i, j);
      }
    }
    Untouched(s, r, k, n);
  }

  lemma UpdatesInStore(s: Objects, r: Round, j: nat)
    requires NamesApart(s, r.plan.update, r.plan.delete) && j < |r.plan.update|
    ensures r.plan.update[j].name in s
  {
  }

  /** Deletes come last. */
  lemma StoredUntilDeleted(s: Objects, r: Round, k: nat, d: nat)
    requires ValidStore(s) && RoundValid(s, r) && |r.names| == |r.plan.create| && d < |r.plan.delete| && k <= Point(s, r, |r.plan.update|)
    ensures k <= |Writes(s, r)| && r.plan.delete[d].name in s && r.plan.delete[d].name in AfterWrites(s, r, k)
    ensures AfterWrites(s, r, k)[r.plan.delete[d].name] == s[r.plan.delete[d].name]
  {
    hide *;
    RoundSizes(s, r);
    RoundNames(s, r);
    PointWithin(s, r, |r.plan.update|);
    var n := r.plan.delete[d].name;
    DeleteNameApart(s, r, 0, d);
    forall w | w in Writes(s, r)[..k] ensures w.name != n {
      WritesBefore(s, r, k, |r.plan.update|, w);
      if i: nat :| i < |r.names| && w == Put(r.names[i], r.plan.create[i].(name := r.names[i])) {
        CreateNameFresh(s, r, i, n);
      } else {
        var i: nat :| i < |r.plan.update| && w in UpdateWrite(s, r.plan.update[i]);
        UpdateWriteName(s, r.plan.update[i], w);
        DeleteNameApart(s, r, i, d);
      }
    }
    Untouched(s, r, k, n);
  }

  lemma PrefixMember(s: Objects, r: Round, k: nat, w: Write)
    requires |r.names| == |r.plan.create| && k <= |Writes(s, r)| && w in Writes(s, r)[..k]
    ensures w in Writes(s, r)
  {
    hide Writes;
  }

  lemma NotDeletedYet(s: Objects, r: Round, k: nat, n: string)
    requires |r.names| == |r.plan.create| && k <= |Writes(s, r)| && !Deletes(Writes(s, r), n)
    ensures !Deletes(Writes(s, r)[..k], n)
  {
    hide Writes;
  }

  /** Created objects are there once all creates are done. */
  lemma CreatedByThen(s: Objects, r: Round, k: nat, i: nat)
    requires ValidStore(s) && RoundValid(s, r) && |r.names| == |r.plan.create| && i < |r.names|
    requires Point(s, r, 0) <= k <= |Writes(s, r)|
    ensures r.names[i] in AfterWrites(s, r, k)
    ensures AfterWrites(s, r, k)[r.names[i]] == r.plan.create[i].(name := r.names[i])
  {
    var n, ws, o := r.names[i], Writes(s, r)[..k], r.plan.create[i].(name := r.names[i]);
    hide *;
    RoundNames(s, r);
    CreateWritesMembers(r.plan.create, r.names, Put(n, o));
    WritesAfter(s, r, k, 0, Put(n, o));
    PutsDef(ws, n, o);
    CreatedNotDeleted(s, r, i);
    NotDeletedYet(s, r, k, n);
    EffectOn(s, ws, n);
    AfterDef(s, r, k);
    PrefixMember(s, r, k, Put(n, ApplyAll(s, ws)[n]));
    PutOrigin(s, r, Put(n, ApplyAll(s, ws)[n]));
    CreatedOnly(s, r, i, ApplyAll(s, ws)[n]);
  }

  lemma AfterDef(s: Objects, r: Round, k: nat)
    requires |r.names| == |r.plan.create| && k <= |Writes(s, r)|
    ensures AfterWrites(s, r, k) == ApplyAll(s, Writes(s, r)[..k])
  {
    hide Writes, ApplyAll;
  }

  /** An updated object is as planned, or semantically equal, from its update on. */
  lemma UpdatedByThen(s: Objects, r: Round, k: nat, i: nat)
    requires ValidStore(s) && RoundValid(s, r) && |r.names| == |r.plan.create| && i < |r.plan.update|
    requires Point(s, r, i + 1) <= k <= |Writes(s, r)|
    ensures UpdatedIn(s, AfterWrites(s, r, k), r.plan.update[i])
  {
    var u, ws := r.plan.update[i], Writes(s, r)[..k];
    var n, now := u.name, ApplyAll(s, ws);
    hide *;
    RoundNames(s, r);
    AfterDef(s, r, k);
    HasNameAt(r.plan.update, i);
    UpdatedNotDeleted(s, r, n);
    NotGenerated(s, r, n);
    NotDeletedYet(s, r, k, n);
    EffectOn(s, ws, n);
    if Puts(ws, n) {
      PrefixMember(s, r, k, Put(n, now[n]));
      PutOrigin(s, r, Put(n, now[n]));
      OnlyUpdateNamed(s, r, i, now[n]);
    } else {
      UnwrittenIsEqual(s, r, k, i);
    }
    UpdatedInDef(s, now, u);
  }

  lemma UnwrittenIsEqual(s: Objects, r: Round, k: nat, i: nat)
    requires |r.names| == |r.plan.create| && i < |r.plan.update| && r.plan.update[i].name in s
    requires Point(s, r, i + 1) <= k <= |Writes(s, r)| && !Puts(Writes(s, r)[..k], r.plan.update[i].name)
    ensures SpecEqual(s[r.plan.update[i].name], r.plan.update[i])
  {
    var u := r.plan.update[i];
    hide SpecEqual, CreateWrites, UpdateWrites, DeleteWrites, Writes, Point;
    if !SpecEqual(s[u.name], u) {
      UpdateWritesMembers(s, r.plan.update[..i + 1], Put(u.name, u));
      assert r.plan.update[..i + 1][i] == u && Put(u.name, u) in UpdateWrite(s, u);
      WritesAfter(s, r, k, i + 1, Put(u.name, u));
      PutsDef(Writes(s, r)[..k], u.name, u);
    }
  }

  // ---------------------------------------------------------------- when traffic stays admitted

  /** The object admits the flow. */
  ghost predicate Shows(net: Network, o: PolicyEndpoint, dir: Direction, f: Flow) { AdmittedBy(net, RulesOf(o, dir), f) }

  /** A created object will admit the flow, or a deleted one did; or some object will admit it
      from its update on, no later than the update until which some object still does. */
  ghost predicate Covered(s: Objects, r: Round, net: Network, dir: Direction, f: Flow) {
    || (exists o :: o in r.plan.create && Shows(net, o, dir, f))
    || (exists d :: d in r.plan.delete && d.name in s && Shows(net, s[d.name], dir, f))
    || (exists i, j :: 0 <= i <= j < |r.plan.update| && Shows(net, r.plan.update[i], dir, f)
                       && r.plan.update[j].name in s && Shows(net, s[r.plan.update[j].name], dir, f))
  }

  lemma ShowsDef(net: Network, o: PolicyEndpoint, dir: Direction, f: Flow)
    ensures Shows(net, o, dir, f) <==> AdmittedBy(net, RulesOf(o, dir), f)
  {
    hide AdmittedBy, RulesOf;
  }

  lemma ShownIsPublished(net: Network, now: Objects, n: string, o: PolicyEndpoint, dir: Direction, f: Flow)
    requires n in now && SameMeaning(now[n], o, net, dir, f) && Shows(net, o, dir, f)
    ensures Published(net, now, dir, f)
  {
    hide AdmittedBy;
  }

  lemma CreatedShows(s: Objects, r: Round, k: nat, net: Network, dir: Direction, f: Flow, i: nat)
    requires ValidStore(s) && RoundValid(s, r) && |r.names| == |r.plan.create| && i < |r.names|
    requires Point(s, r, 0) <= k <= |Writes(s, r)| && Shows(net, r.plan.create[i], dir, f)
    ensures Published(net, AfterWrites(s, r, k), dir, f)
  {
    hide *;
    CreatedByThen(s, r, k, i);
    RenamedSame(r.plan.create[i], r.names[i], net, dir, f);
    ShownIsPublished(net, AfterWrites(s, r, k), r.names[i], r.plan.create[i], dir, f);
  }

  lemma UpdatedShows(s: Objects, r: Round, k: nat, net: Network, dir: Direction, f: Flow, i: nat)
    requires ValidStore(s) && RoundValid(s, r) && |r.names| == |r.plan.create| && i < |r.plan.update|
    requires Point(s, r, i + 1) <= k <= |Writes(s, r)|
    ensures r.plan.update[i].name in AfterWrites(s, r, k)
    ensures SameMeaning(AfterWrites(s, r, k)[r.plan.update[i].name], r.plan.update[i], net, dir, f)
    ensures Shows(net, r.plan.update[i], dir, f) ==> Published(net, AfterWrites(s, r, k), dir, f)
  {
    hide *;
    UpdatedByThen(s, r, k, i);
    UpdateValid(s, r, i);
    UpdatedMeaning(s, AfterWrites(s, r, k), r.plan.update[i], net, dir, f);
    if Shows(net, r.plan.update[i], dir, f) {
      ShownIsPublished(net, AfterWrites(s, r, k), r.plan.update[i].name, r.plan.update[i], dir, f);
    }
  }

  lemma StillStored(net: Network, s: Objects, now: Objects, n: string, dir: Direction, f: Flow)
    requires n in s && n in now && now[n] == s[n] && Shows(net, s[n], dir, f)
    ensures Published(net, now, dir, f)
  {
    hide AdmittedBy;
  }

  /** When all updates are done, everything desired is admitted. */
  lemma AllUpdatedShows(s: Objects, r: Round, k: nat, net: Network, dir: Direction, f: Flow)
    requires ValidStore(s) && RoundValid(s, r) && |r.names| == |r.plan.create|
    requires AdmittedBy(net, RulesWanted(r.resolved, dir), f)
    requires Point(s, r, |r.plan.update|) <= k <= |Writes(s, r)|
    ensures Published(net, AfterWrites(s, r, k), dir, f)
  {
    hide *;
    var m := DesiredPlanned(s, r, net, dir, f);
    ShowsDef(net, m, dir, f);
    PointMonotone(s, r, 0, |r.plan.update|);
    if m in r.plan.create {
      var i: nat :| i < |r.plan.create| && r.plan.create[i] == m;
      CreatedShows(s, r, k, net, dir, f, i);
    } else {
      var i: nat :| i < |r.plan.update| && r.plan.update[i] == m;
      PointMonotone(s, r, i + 1, |r.plan.update|);
      UpdatedShows(s, r, k, net, dir, f, i);
    }
  }

  /** Between an update that admits the flow and a later object that still does there is no gap. */
  lemma PairShows(s: Objects, r: Round, k: nat, net: Network, dir: Direction, f: Flow, i: nat, j: nat)
    requires ValidStore(s) && RoundValid(s, r) && |r.names| == |r.plan.create| && k <= |Writes(s, r)|
    requires i <= j < |r.plan.update| && Shows(net, r.plan.update[i], dir, f)
    requires r.plan.update[j].name in s && Shows(net, s[r.plan.update[j].name], dir, f)
    ensures Published(net, AfterWrites(s, r, k), dir, f)
  {
    hide *;
    if k <= Point(s, r, j) {
      StoredUntilUpdated(s, r, k, j);
      StillStored(net, s, AfterWrites(s, r, k), r.plan.update[j].name, dir, f);
    } else {
      PointNext(s, r, i);
      if i < j {
        PointMonotone(s, r, i + 1, j);
      }
      UpdatedShows(s, r, k, net, dir, f, i);
    }
  }

  lemma CoveredStays(s: Objects, r: Round, k: nat, net: Network, dir: Direction, f: Flow)
    requires ValidStore(s) && RoundValid(s, r) && |r.names| == |r.plan.create| && k <= |Writes(s, r)|
    requires Published(net, s, dir, f) && AdmittedBy(net, RulesWanted(r.resolved, dir), f) && Covered(s, r, net, dir, f)
    ensures Published(net, AfterWrites(s, r, k), dir, f)
  {
    hide AdmittedBy, RoundValid, ValidStore, Writes, AfterWrites, Point, RulesWanted, RulesOf;
    if k <= Point(s, r, 0) {
      var n :| n in s && AdmittedBy(net, RulesOf(s[n], dir), f);
      StoredUntilCreated(s, r, k, n);
    } else if o :| o in r.plan.create && Shows(net, o, dir, f) {
      var i: nat :| i < |r.plan.create| && r.plan.create[i] == o;
      CreatedShows(s, r, k, net, dir, f, i);
    } else if i, j :| 0 <= i <= j < |r.plan.update| && Shows(net, r.plan.update[i], dir, f)
                      && r.plan.update[j].name in s && Shows(net, s[r.plan.update[j].name], dir, f) {
      PairShows(s, r, k, net, dir, f, i, j);
    } else if k <= Point(s, r, |r.plan.update|) {
      var o :| o in r.plan.delete && o.name in s && Shows(net, s[o.name], dir, f);
      var d: nat :| d < |r.plan.delete| && r.plan.delete[d] == o;
      StoredUntilDeleted(s, r, k, d);
      StillStored(net, s, AfterWrites(s, r, k), o.name, dir, f);
    } else {
      AllUpdatedShows(s, r, k, net, dir, f);
    }
  }

  /** The first update that admits the flow. */
  lemma {:induction false} FirstShowing(update: seq<PolicyEndpoint>, net: Network, dir: Direction, f: Flow, t: nat) returns (i: nat)
    requires t < |update| && Shows(net, update[t], dir, f)
    ensures i < |update| && Shows(net, update[i], dir, f) && forall j :: 0 <= j < i ==> !Shows(net, update[j], dir, f)
  {
    hide Shows;
    if j: nat :| j < t && Shows(net, update[j], dir, f) {
      i := FirstShowing(update, net, dir, f, j);
    } else {
      i := t;
    }
  }

  ghost predicate NotAdmittedAt(s: Objects, r: Round, k: nat, net: Network, dir: Direction, f: Flow, n: string)
    requires |r.names| == |r.plan.create| && k <= |Writes(s, r)|
  {
    n in AfterWrites(s, r, k) ==> !Shows(net, AfterWrites(s, r, k)[n], dir, f)
  }

  /** Before the first update that admits the flow, no object does. */
  lemma GapAt(s: Objects, r: Round, net: Network, dir: Direction, f: Flow, t: nat, n: string)
    requires ValidStore(s) && RoundValid(s, r) && |r.names| == |r.plan.create| && !Covered(s, r, net, dir, f)
    requires t < |r.plan.update| && Shows(net, r.plan.update[t], dir, f)
    requires forall j :: 0 <= j < t ==> !Shows(net, r.plan.update[j], dir, f)
    ensures Point(s, r, t) <= |Writes(s, r)| && NotAdmittedAt(s, r, Point(s, r, t), net, dir, f, n)
  {
    hide *;
    var k := Point(s, r, t);
    PointWithin(s, r, t);
    RoundNames(s, r);
    AfterDef(s, r, k);
    if n in s {
      if HasName(r.plan.update, n) {
        var j := NameIndex(r.plan.update, n);
        if j < t {
          PointMonotone(s, r, j + 1, t);
          UpdatedShows(s, r, k, net, dir, f, j);
          SameShows(AfterWrites(s, r, k)[n], r.plan.update[j], net, dir, f);
        } else {
          PointMonotone(s, r, t, j);
          StoredUntilUpdated(s, r, k, j);
          NotCoveredLater(s, r, net, dir, f, t, j);
        }
      } else {
        var d := DeletedIndex(s, r, n);
        PointMonotone(s, r, t, |r.plan.update|);
        StoredUntilDeleted(s, r, k, d);
        NotCoveredDeleted(s, r, net, dir, f, d);
      }
      NotAdmittedDef(s, r, k, net, dir, f, n);
    } else {
      AtPrefix(s, r, k, n);
      if n in AfterWrites(s, r, k) {
        NewIsCreated(s, r, n, AfterWrites(s, r, k)[n]);
        var m := CreatedIsPlanned(r, n, AfterWrites(s, r, k)[n]);
        RenamedSame(m, n, net, dir, f);
        SameShows(AfterWrites(s, r, k)[n], m, net, dir, f);
        NotCoveredCreated(s, r, net, dir, f, m);
      }
      NotAdmittedDef(s, r, k, net, dir, f, n);
    }
  }

  lemma NameIndex(update: seq<PolicyEndpoint>, n: string) returns (j: nat)
    requires HasName(update, n)
    ensures j < |update| && update[j].name == n
  {
    j :| j < |update| && update[j].name == n;
  }

  lemma DeletedIndex(s: Objects, r: Round, n: string) returns (d: nat)
    requires NamesApart(s, r.plan.update, r.plan.delete) && n in s && !HasName(r.plan.update, n)
    ensures d < |r.plan.delete| && r.plan.delete[d].name == n
  {
    d :| d < |r.plan.delete| && r.plan.delete[d].name == n;
  }

  lemma NewIsCreated(s: Objects, r: Round, n: string, o: PolicyEndpoint)
    requires |r.names| == |r.plan.create| && NamesApart(s, r.plan.update, r.plan.delete) && n !in s
    requires IsCreated(r, n, o) || (o in r.plan.update && o.name == n)
    ensures IsCreated(r, n, o)
  {
    if o in r.plan.update && o.name == n {
      UpdateStored(s, r, o);
    }
  }

  lemma SameShows(a: PolicyEndpoint, b: PolicyEndpoint, net: Network, dir: Direction, f: Flow)
    requires SameMeaning(a, b, net, dir, f)
    ensures Shows(net, a, dir, f) <==> Shows(net, b, dir, f)
  {
    hide AdmittedBy;
  }

  lemma NotAdmittedDef(s: Objects, r: Round, k: nat, net: Network, dir: Direction, f: Flow, n: string)
    requires |r.names| == |r.plan.create| && k <= |Writes(s, r)|
    requires n in AfterWrites(s, r, k) ==> !Shows(net, AfterWrites(s, r, k)[n], dir, f)
    ensures NotAdmittedAt(s, r, k, net, dir, f, n)
  {
    hide AfterWrites, Shows, Writes;
  }

  lemma NotCoveredLater(s: Objects, r: Round, net: Network, dir: Direction, f: Flow, t: nat, j: nat)
    requires !Covered(s, r, net, dir, f) && t <= j < |r.plan.update| && Shows(net, r.plan.update[t], dir, f)
    requires r.plan.update[j].name in s
    ensures !Shows(net, s[r.plan.update[j].name], dir, f)
  {
    hide Shows;
  }

  lemma NotCoveredDeleted(s: Objects, r: Round, net: Network, dir: Direction, f: Flow, d: nat)
    requires !Covered(s, r, net, dir, f) && d < |r.plan.delete| && r.plan.delete[d].name in s
    ensures !Shows(net, s[r.plan.delete[d].name], dir, f)
  {
    hide Shows;
    assert r.plan.delete[d] in r.plan.delete;
  }

  lemma NotCoveredCreated(s: Objects, r: Round, net: Network, dir: Direction, f: Flow, m: PolicyEndpoint)
    requires !Covered(s, r, net, dir, f) && m in r.plan.create
    ensures !Shows(net, m, dir, f)
  {
    hide Shows;
  }

  lemma NobodyAdmits(net: Network, now: Objects, dir: Direction, f: Flow)
    requires forall n | n in now :: !Shows(net, now[n], dir, f)
    ensures !Published(net, now, dir, f)
  {
    hide AdmittedBy, RulesOf;
    forall n | n in now ensures !AdmittedBy(net, RulesOf(now[n], dir), f) {
      assert !Shows(net, now[n], dir, f);
    }
  }

  /** Otherwise there is a prefix at which the flow is not admitted. */
  lemma UncoveredGap(s: Objects, r: Round, net: Network, dir: Direction, f: Flow) returns (k: nat)
    requires ValidStore(s) && RoundValid(s, r) && |r.names| == |r.plan.create|
    requires AdmittedBy(net, RulesWanted(r.resolved, dir), f) && !Covered(s, r, net, dir, f)
    ensures k <= |Writes(s, r)| && !Published(net, AfterWrites(s, r, k), dir, f)
  {
    hide *;
    var m := DesiredPlanned(s, r, net, dir, f);
    ShowsDef(net, m, dir, f);
    if m in r.plan.create {
      NotCoveredCreated(s, r, net, dir, f, m);
    }
    var u: nat :| u < |r.plan.update| && r.plan.update[u] == m;
    var t := FirstShowing(r.plan.update, net, dir, f, u);
    k := Point(s, r, t);
    PointWithin(s, r, t);
    forall n | n in AfterWrites(s, r, k) ensures !Shows(net, AfterWrites(s, r, k)[n], dir, f) {
      GapAt(s, r, net, dir, f, t, n);
      NotAdmittedUse(s, r, k, net, dir, f, n);
    }
    NobodyAdmits(net, AfterWrites(s, r, k), dir, f);
  }

  lemma NotAdmittedUse(s: Objects, r: Round, k: nat, net: Network, dir: Direction, f: Flow, n: string)
    requires |r.names| == |r.plan.create| && k <= |Writes(s, r)| && NotAdmittedAt(s, r, k, net, dir, f, n)
    requires n in AfterWrites(s, r, k)
    ensures !Shows(net, AfterWrites(s, r, k)[n], dir, f)
  {
    hide AfterWrites, Shows, Writes;
  }

  /** Traffic that the store admits and that is desired is admitted at every prefix of the round's
      writes if and only if it is covered, which the store and the plan decide before the first
      write. */
  lemma StaysExactly(s: Objects, r: Round, net: Network, dir: Direction, f: Flow)
    requires ValidStore(s) && RoundValid(s, r)
    requires Published(net, s, dir, f) && AdmittedBy(net, RulesWanted(r.resolved, dir), f)
    ensures |r.names| == |r.plan.create|
    ensures (forall k: nat | k <= |Writes(s, r)| :: Published(net, ApplyAll(s, Writes(s, r)[..k]), dir, f)) <==>
            Covered(s, r, net, dir, f)
  {
    hide *;
    RoundSizes(s, r);
    if Covered(s, r, net, dir, f) {
      forall k: nat | k <= |Writes(s, r)| ensures Published(net, ApplyAll(s, Writes(s, r)[..k]), dir, f) {
        CoveredStays(s, r, k, net, dir, f);
        AfterDef(s, r, k);
      }
    } else {
      var k := UncoveredGap(s, r, net, dir, f);
      AfterDef(s, r, k);
    }
  }

  // ---------------------------------------------------------------- rules that stay where they are

  /** A desired rule that is stored as it stands covers its traffic: the object that keeps it
      admits the flow before and after its update. */
  lemma KeptRuleCovered(s: Objects, r: Round, net: Network, dir: Direction, f: Flow, e: EndpointInfo, n: string)
    requires ValidStore(s) && RoundValid(s, r)
    requires e in RulesWanted(r.resolved, dir) && n in s && e in RulesOf(s[n], dir) && Admits(net, e, f)
    ensures Covered(s, r, net, dir, f)
    ensures Published(net, s, dir, f) && AdmittedBy(net, RulesWanted(r.resolved, dir), f)
  {
    hide RoundValid, Admits, ValidSpec, PlanOf, MergedObject, RulesOf, RulesWanted;
    var o := RuleStays(s, r, dir, e, n);
    var m := MergedImage(s, r, o);
    SurvivorsValid(s, r, o);
    MergedMeaning(o, m, net, dir, f);
    MergedPods(o, m);
    var i :| 0 <= i < |r.plan.update| && r.plan.update[i] == m;
    assert Shows(net, r.plan.update[i], dir, f) && Shows(net, s[m.name], dir, f);
  }

  /** At every prefix the traffic of a desired rule that is stored as it stands is admitted. */
  lemma PrefixKeepsPublishedRule(
    s: Objects, r: Round, k: nat, net: Network, dir: Direction, f: Flow, e: EndpointInfo, n: string)
    requires ValidStore(s) && RoundValid(s, r) && k <= |Writes(s, r)|
    requires e in RulesWanted(r.resolved, dir) && n in s && e in RulesOf(s[n], dir) && Admits(net, e, f)
    ensures Published(net, ApplyAll(s, Writes(s, r)[..k]), dir, f)
  {
    hide *;
    KeptRuleCovered(s, r, net, dir, f, e, n);
    StaysExactly(s, r, net, dir, f);
  }
}
