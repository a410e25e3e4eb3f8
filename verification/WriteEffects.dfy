/** What the store holds after any prefix of a round's writes, and after all of them. */
module WriteEffects {
  import opened Basics
  import opened PolicyInfo
  import opened Reconciler
  import opened Equality
  import opened Store

  // ---------------------------------------------------------------- which writes a round consists of

  lemma {:induction false} CreateWritesMembers(create: seq<PolicyEndpoint>, names: seq<string>, w: Write)
    requires |names| == |create|
    ensures w in CreateWrites(create, names) <==>
            exists i :: 0 <= i < |create| && w == Put(names[i], create[i].(name := names[i]))
  {
    if create != [] {
      var n := |create| - 1;
      CreateWritesMembers(create[..n], names[..n], w);
      assert forall i :: 0 <= i < n ==> create[..n][i] == create[i] && names[..n][i] == names[i];
    }
  }

  lemma {:induction false} UpdateWritesMembers(s: Objects, update: seq<PolicyEndpoint>, w: Write)
    ensures w in UpdateWrites(s, update) <==>
            exists i :: 0 <= i < |update| && w in UpdateWrite(s, update[i])
  {
    hide UpdateWrite;
    if update != [] {
      var n := |update| - 1;
      UpdateWritesMembers(s, update[..n], w);
      assert forall i :: 0 <= i < n ==> update[..n][i] == update[i];
    }
  }

  lemma {:induction false} DeleteWritesMembers(delete: seq<PolicyEndpoint>, w: Write)
    ensures w in DeleteWrites(delete) <==> exists i :: 0 <= i < |delete| && w == Delete(delete[i].name)
  {
    if delete != [] {
      var n := |delete| - 1;
      DeleteWritesMembers(delete[..n], w);
      assert forall i :: 0 <= i < n ==> delete[..n][i] == delete[i];
    }
  }

  // ---------------------------------------------------------------- the effect of writes on one name

  ghost predicate Puts(ws: seq<Write>, n: string) { exists w :: w in ws && w.Put? && w.name == n }

  ghost predicate Deletes(ws: seq<Write>, n: string) { Delete(n) in ws }

  lemma {:induction false} EffectOn(s: Objects, ws: seq<Write>, n: string)
    ensures !Puts(ws, n) && !Deletes(ws, n) ==>
      (n in ApplyAll(s, ws) <==> n in s) && (n in s ==> ApplyAll(s, ws)[n] == s[n])
    ensures Puts(ws, n) && !Deletes(ws, n) ==> n in ApplyAll(s, ws) && Put(n, ApplyAll(s, ws)[n]) in ws
    ensures !Puts(ws, n) && Deletes(ws, n) ==> n !in ApplyAll(s, ws)
    ensures n in ApplyAll(s, ws) ==> (n in s && ApplyAll(s, ws)[n] == s[n]) || Put(n, ApplyAll(s, ws)[n]) in ws
  {
    if ws != [] {
      var init, last := ws[..|ws| - 1], ws[|ws| - 1];
      EffectOn(s, init, n);
      assert ws == init + [last];
      assert forall w :: w in ws <==> w in init || w == last;
    }
  }

  // ---------------------------------------------------------------- any prefix

  /** Object `o` stored as `n` is a created object of the round under its new name. */
  ghost predicate IsCreated(r: Round, n: string, o: PolicyEndpoint)
    requires |r.names| == |r.plan.create|
  {
    exists i :: 0 <= i < |r.names| && r.names[i] == n && o == r.plan.create[i].(name := n)
  }

  /** At every prefix each stored object is an old one, a created one or an updated one, and
      no updated object is missing. */
  lemma AtPrefix(s: Objects, r: Round, k: nat, n: string)
    requires ValidStore(s) && RoundValid(s, r) && k <= |Writes(s, r)|
    ensures var now := ApplyAll(s, Writes(s, r)[..k]);
            && (n in now ==> (n in s && now[n] == s[n]) || IsCreated(r, n, now[n])
                             || (now[n] in r.plan.update && now[n].name == n))
            && (HasName(r.plan.update, n) ==> n in now && n in s && (now[n] == s[n] || now[n] in r.plan.update))
  {
    var ws := Writes(s, r)[..k];
    var now := ApplyAll(s, ws);
    hide RoundValid;
    EffectOn(s, ws, n);
    if n in now && Put(n, now[n]) in ws {
      PutOrigin(s, r, Put(n, now[n]));
    }
    if HasName(r.plan.update, n) {
      RoundNames(s, r);
      UpdatedNotDeleted(s, r, n);
      assert !Deletes(ws, n);
      NotGenerated(s, r, n);
    }
  }

  lemma RoundSizes(s: Objects, r: Round)
    requires RoundValid(s, r)
    ensures |r.names| == |r.plan.create| && FreshNames(s, r.names)
  {
  }

  lemma PutOrigin(s: Objects, r: Round, w: Write)
    requires RoundValid(s, r) && w in Writes(s, r) && w.Put?
    ensures IsCreated(r, w.name, w.endpoint) || (w.endpoint in r.plan.update && w.endpoint.name == w.name)
  {
    RoundSizes(s, r);
    hide RoundValid, SpecEqual;
    CreateWritesMembers(r.plan.create, r.names, w);
    UpdateWritesMembers(s, r.plan.update, w);
    DeleteWritesMembers(r.plan.delete, w);
  }

  lemma NotGenerated(s: Objects, r: Round, n: string)
    requires RoundValid(s, r) && n in s
    ensures n !in r.names
    ensures forall o: PolicyEndpoint :: !IsCreated(r, n, o)
  {
    RoundSizes(s, r);
    hide RoundValid;
  }

  lemma UpdatedNotDeleted(s: Objects, r: Round, n: string)
    requires RoundValid(s, r) && NamesApart(s, r.plan.update, r.plan.delete) && HasName(r.plan.update, n)
    ensures n in s && !Deletes(Writes(s, r), n)
  {
    RoundSizes(s, r);
    hide RoundValid, SpecEqual;
    CreateWritesMembers(r.plan.create, r.names, Delete(n));
    UpdateWritesMembers(s, r.plan.update, Delete(n));
    DeleteWritesMembers(r.plan.delete, Delete(n));
  }

  // ---------------------------------------------------------------- the complete round

  ghost predicate UpdatedIn(s: Objects, now: Objects, u: PolicyEndpoint) {
    && u.name in now && u.name in s
    && (now[u.name] == u || (now[u.name] == s[u.name] && SpecEqual(s[u.name], u)))
  }

  lemma CreatedInStore(s: Objects, r: Round, i: nat)
    requires ValidStore(s) && RoundValid(s, r) && NamesApart(s, r.plan.update, r.plan.delete) && i < |r.names|
    ensures var now := ApplyAll(s, Writes(s, r));
            r.names[i] in now && now[r.names[i]] == r.plan.create[i].(name := r.names[i])
  {
    var n, ws := r.names[i], Writes(s, r);
    hide *;
    RoundSizes(s, r);
    CreatedWritten(s, r, i);
    CreatedNotDeleted(s, r, i);
    PutsDef(ws, n, r.plan.create[i].(name := n));
    EffectOn(s, ws, n);
    PutOrigin(s, r, Put(n, ApplyAll(s, ws)[n]));
    CreatedOnly(s, r, i, ApplyAll(s, ws)[n]);
  }

  lemma PutsDef(ws: seq<Write>, n: string, o: PolicyEndpoint)
    requires Put(n, o) in ws
    ensures Puts(ws, n)
  {
  }

  lemma CreatedWritten(s: Objects, r: Round, i: nat)
    requires RoundValid(s, r) && i < |r.names|
    ensures |r.names| == |r.plan.create| && Put(r.names[i], r.plan.create[i].(name := r.names[i])) in Writes(s, r)
  {
    RoundSizes(s, r);
    hide RoundValid, UpdateWrites, DeleteWrites;
    CreateWritesMembers(r.plan.create, r.names, Put(r.names[i], r.plan.create[i].(name := r.names[i])));
  }

  lemma CreatedNotDeleted(s: Objects, r: Round, i: nat)
    requires RoundValid(s, r) && NamesApart(s, r.plan.update, r.plan.delete) && i < |r.names|
    ensures !Deletes(Writes(s, r), r.names[i])
  {
    RoundSizes(s, r);
    hide RoundValid, SpecEqual;
    CreateWritesMembers(r.plan.create, r.names, Delete(r.names[i]));
    UpdateWritesMembers(s, r.plan.update, Delete(r.names[i]));
    DeleteWritesMembers(r.plan.delete, Delete(r.names[i]));
    hide CreateWrites, UpdateWrites, DeleteWrites;
  }

  /** A generated name belongs to one created object and to no updated one. */
  lemma CreatedOnly(s: Objects, r: Round, i: nat, o: PolicyEndpoint)
    requires RoundValid(s, r) && NamesApart(s, r.plan.update, r.plan.delete) && i < |r.names|
    requires IsCreated(r, r.names[i], o) || (o in r.plan.update && o.name == r.names[i])
    ensures |r.names| == |r.plan.create| && o == r.plan.create[i].(name := r.names[i])
  {
    RoundSizes(s, r);
    hide RoundValid;
    forall u | u in r.plan.update ensures u.name != r.names[i] {
      UpdateStored(s, r, u);
    }
    hide NamesApart;
    var j :| 0 <= j < |r.names| && r.names[j] == r.names[i] && o == r.plan.create[j].(name := r.names[i]);
    SameNameSameIndex(s, r.names, i, j);
  }

  lemma UpdateStored(s: Objects, r: Round, u: PolicyEndpoint)
    requires NamesApart(s, r.plan.update, r.plan.delete) && u in r.plan.update
    ensures u.name in s
  {
    var j :| 0 <= j < |r.plan.update| && r.plan.update[j] == u;
  }

  lemma SameNameSameIndex(s: Objects, names: seq<string>, i: nat, j: nat)
    requires FreshNames(s, names) && i < |names| && j < |names| && names[i] == names[j]
    ensures i == j
  {
  }

  lemma UpdatedInStore(s: Objects, r: Round, i: nat)
    requires ValidStore(s) && RoundValid(s, r) && NamesApart(s, r.plan.update, r.plan.delete) && i < |r.plan.update|
    ensures UpdatedIn(s, ApplyAll(s, Writes(s, r)), r.plan.update[i])
  {
    var u, ws := r.plan.update[i], Writes(s, r);
    var n, now := u.name, ApplyAll(s, ws);
    hide *;
    RoundSizes(s, r);
    HasNameAt(r.plan.update, i);
    UpdatedNotDeleted(s, r, n);
    NotGenerated(s, r, n);
    EffectOn(s, ws, n);
    if Puts(ws, n) {
      PutOrigin(s, r, Put(n, now[n]));
      OnlyUpdateNamed(s, r, i, now[n]);
    } else {
      NotPutIsEqual(s, r, i);
    }
    UpdatedInDef(s, now, u);
  }

  lemma HasNameAt(objs: seq<PolicyEndpoint>, i: nat)
    requires i < |objs|
    ensures HasName(objs, objs[i].name)
  {
  }

  lemma OnlyUpdateNamed(s: Objects, r: Round, i: nat, o: PolicyEndpoint)
    requires NamesApart(s, r.plan.update, r.plan.delete) && i < |r.plan.update|
    requires o in r.plan.update && o.name == r.plan.update[i].name
    ensures o == r.plan.update[i]
  {
    var j :| 0 <= j < |r.plan.update| && r.plan.update[j] == o;
  }

  /** An update that is not written is one whose stored spec is equal. */
  lemma NotPutIsEqual(s: Objects, r: Round, i: nat)
    requires |r.names| == |r.plan.create| && i < |r.plan.update| && r.plan.update[i].name in s
    requires !Puts(Writes(s, r), r.plan.update[i].name)
    ensures SpecEqual(s[r.plan.update[i].name], r.plan.update[i])
  {
    var u := r.plan.update[i];
    hide SpecEqual, CreateWrites, UpdateWrites, DeleteWrites;
    UpdateWritesMembers(s, r.plan.update, Put(u.name, u));
    assert Put(u.name, u) !in Writes(s, r);
  }

  lemma UpdatedInDef(s: Objects, now: Objects, u: PolicyEndpoint)
    requires u.name in now && u.name in s
    requires now[u.name] == u || (now[u.name] == s[u.name] && SpecEqual(s[u.name], u))
    ensures UpdatedIn(s, now, u)
  {
    hide SpecEqual;
  }

  lemma OnlySurvivors(s: Objects, r: Round, n: string)
    requires ValidStore(s) && RoundValid(s, r) && NamesApart(s, r.plan.update, r.plan.delete)
    requires n in ApplyAll(s, Writes(s, r))
    ensures n in r.names || HasName(r.plan.update, n)
  {
    var ws := Writes(s, r);
    hide *;
    EffectOn(s, ws, n);
    if n in s && ApplyAll(s, ws)[n] == s[n] && !HasName(r.plan.update, n) {
      NotUpdatedIsDeleted(s, r, n);
    } else if !HasName(r.plan.update, n) {
      PutOrigin(s, r, Put(n, ApplyAll(s, ws)[n]));
      SurvivorName(s, r, n, ApplyAll(s, ws)[n]);
    }
  }

  lemma SurvivorName(s: Objects, r: Round, n: string, o: PolicyEndpoint)
    requires RoundValid(s, r)
    requires IsCreated(r, n, o) || (o in r.plan.update && o.name == n)
    ensures n in r.names || HasName(r.plan.update, n)
  {
    hide RoundValid;
  }

  lemma NotUpdatedIsDeleted(s: Objects, r: Round, n: string)
    requires RoundValid(s, r) && NamesApart(s, r.plan.update, r.plan.delete)
    requires n in s && !HasName(r.plan.update, n)
    ensures Deletes(Writes(s, r), n) && !Puts(Writes(s, r), n)
  {
    hide *;
    RoundSizes(s, r);
    var d := DeletedName(s, r, n);
    DeleteWritesMembers(r.plan.delete, Delete(n));
    DeleteIsWritten(s, r, n);
    forall w | w in Writes(s, r) && w.Put? ensures w.name != n {
      PutOrigin(s, r, w);
      NeitherCreatedNorUpdated(s, r, n, w.endpoint);
    }
    NoPut(Writes(s, r), n);
  }

  lemma DeletedName(s: Objects, r: Round, n: string) returns (d: PolicyEndpoint)
    requires NamesApart(s, r.plan.update, r.plan.delete) && n in s && !HasName(r.plan.update, n)
    ensures d in r.plan.delete && d.name == n
  {
    var i :| 0 <= i < |r.plan.delete| && r.plan.delete[i].name == n;
    d := r.plan.delete[i];
  }

  lemma DeleteIsWritten(s: Objects, r: Round, n: string)
    requires |r.names| == |r.plan.create| && Delete(n) in DeleteWrites(r.plan.delete)
    ensures Deletes(Writes(s, r), n)
  {
    hide CreateWrites, UpdateWrites, DeleteWrites;
  }

  lemma NeitherCreatedNorUpdated(s: Objects, r: Round, n: string, o: PolicyEndpoint)
    requires FreshNames(s, r.names) && |r.names| == |r.plan.create| && n in s && !HasName(r.plan.update, n)
    ensures !IsCreated(r, n, o) && !(o in r.plan.update && o.name == n)
  {
  }

  lemma NoPut(ws: seq<Write>, n: string)
    requires forall w | w in ws && w.Put? :: w.name != n
    ensures !Puts(ws, n)
  {
  }
}
