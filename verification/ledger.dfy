/** The allocator's table of resources, committing and freeing on it, and what
    holds over every run of allocations and frees. */
module Ledger {
  import opened Resources

  type Table = map<Key, Res>

  /** One planned item: serve req on the resource with this key. */
  datatype Grant = Grant(key: Key, req: Req)

  ghost predicate SafeTable(t: Table) {
    forall k <- t :: t[k].Key() == k && Safe(t[k])
  }

  /** Same resources with the same attributes; owners may differ. */
  ghost predicate SameHardware(t: Table, u: Table) {
    t.Keys == u.Keys && forall k <- t :: t[k].attrs == u[k].attrs
  }

  // ------------------------------------------------------------- committing

  /** Commit grants in order; None when some grant is refused. */
  function CommitAll(t: Table, gs: seq<Grant>, uid: nat): Option<Table>
    decreases |gs|
  {
    if gs == [] then Some(t)
    else if gs[0].key in t && CanAllocate(t[gs[0].key], gs[0].req) then
      CommitAll(t[gs[0].key := Grow(t[gs[0].key], gs[0].req, uid)], gs[1..], uid)
    else None
  }

  /** The requests a list of grants puts on one resource, in order. */
  function On(gs: seq<Grant>, k: Key): seq<Req> {
    if gs == [] then [] else (if gs[0].key == k then [gs[0].req] else []) + On(gs[1..], k)
  }

  /** Committing a list acts on each resource by itself. */
  lemma {:induction false} CommitByKey(t: Table, gs: seq<Grant>, uid: nat)
    ensures CommitAll(t, gs, uid).Some?
      <==> (forall g <- gs :: g.key in t) && (forall k <- t :: Replay(t[k], On(gs, k), uid).Some?)
    ensures CommitAll(t, gs, uid).Some? ==>
              var t' := CommitAll(t, gs, uid).value;
              t'.Keys == t.Keys && forall k <- t :: Replay(t[k], On(gs, k), uid) == Some(t'[k])
    decreases |gs|
  {
    if gs != [] {
      var g, rest := gs[0], gs[1..];
      assert gs == [g] + rest;
      if g.key in t {
        assert On(gs, g.key)[0] == g.req && On(gs, g.key)[1..] == On(rest, g.key);
        if CanAllocate(t[g.key], g.req) {
          var t1 := t[g.key := Grow(t[g.key], g.req, uid)];
          CommitByKey(t1, rest, uid);
          forall k <- t
            ensures Replay(t[k], On(gs, k), uid) == Replay(t1[k], On(rest, k), uid)
          {
            if k != g.key { assert On(gs, k) == On(rest, k); }
          }
          assert t1.Keys == t.Keys;
        } else {
          assert Replay(t[g.key], On(gs, g.key), uid).None?;
        }
      }
    }
  }

  lemma {:induction false} OnCounts(gs: seq<Grant>, k: Key, q: Req)
    ensures multiset(On(gs, k))[q] == multiset(gs)[Grant(k, q)]
  {
    if gs != [] {
      assert gs == [gs[0]] + gs[1..];
      OnCounts(gs[1..], k, q);
    }
  }

  lemma OnPermutes(gs: seq<Grant>, hs: seq<Grant>, k: Key)
    requires multiset(gs) == multiset(hs)
    ensures multiset(On(gs, k)) == multiset(On(hs, k))
  {
    forall q: Req
      ensures multiset(On(gs, k))[q] == multiset(On(hs, k))[q]
    {
      OnCounts(gs, k, q);
      OnCounts(hs, k, q);
    }
  }

  lemma PermutedStillCommits(t: Table, gs: seq<Grant>, hs: seq<Grant>, uid: nat)
    requires SafeTable(t) && multiset(gs) == multiset(hs)
    requires CommitAll(t, gs, uid).Some?
    ensures CommitAll(t, hs, uid) == CommitAll(t, gs, uid)
  {
    CommitByKey(t, gs, uid);
    CommitByKey(t, hs, uid);
    forall k <- t
      ensures Replay(t[k], On(hs, k), uid) == Replay(t[k], On(gs, k), uid)
    {
      OnPermutes(gs, hs, k);
      BatchOrderIrrelevant(t[k], On(gs, k), On(hs, k), uid);
    }
    forall h <- hs
      ensures h.key in t
    {
      assert h in multiset(hs);
      assert h in gs;
    }
    assert CommitAll(t, hs, uid).Some?;
    assert CommitAll(t, hs, uid).value == CommitAll(t, gs, uid).value;
  }

  /** Whatever commits in one order commits in every order, to the same table. */
  lemma CommitOrderIrrelevant(t: Table, gs: seq<Grant>, hs: seq<Grant>, uid: nat)
    requires SafeTable(t) && multiset(gs) == multiset(hs)
    ensures CommitAll(t, gs, uid) == CommitAll(t, hs, uid)
  {
    if CommitAll(t, gs, uid).Some? {
      PermutedStillCommits(t, gs, hs, uid);
    } else if CommitAll(t, hs, uid).Some? {
      PermutedStillCommits(t, hs, gs, uid);
    }
  }

  lemma {:induction false} CommitAppend(t: Table, gs: seq<Grant>, hs: seq<Grant>, uid: nat)
    ensures CommitAll(t, gs + hs, uid)
         == (match CommitAll(t, gs, uid) case Some(t') => CommitAll(t', hs, uid) case None => None)
    decreases |gs|
  {
    if gs == [] {
      assert gs + hs == hs;
    } else {
      assert (gs + hs)[0] == gs[0] && (gs + hs)[1..] == gs[1..] + hs;
      if gs[0].key in t && CanAllocate(t[gs[0].key], gs[0].req) {
        CommitAppend(t[gs[0].key := Grow(t[gs[0].key], gs[0].req, uid)], gs[1..], hs, uid);
      }
    }
  }

  /** Every prefix of a list that commits commits. */
  lemma CommitPrefix(t: Table, gs: seq<Grant>, n: nat, uid: nat)
    requires n <= |gs| && CommitAll(t, gs, uid).Some?
    ensures CommitAll(t, gs[..n], uid).Some?
    ensures CommitAll(CommitAll(t, gs[..n], uid).value, gs[n..], uid) == CommitAll(t, gs, uid)
  {
    assert gs == gs[..n] + gs[n..];
    CommitAppend(t, gs[..n], gs[n..], uid);
  }

  lemma {:induction false} CommitKeepsSafe(t: Table, gs: seq<Grant>, uid: nat)
    requires SafeTable(t) && CommitAll(t, gs, uid).Some?
    ensures SafeTable(CommitAll(t, gs, uid).value)
    ensures SameHardware(t, CommitAll(t, gs, uid).value)
    decreases |gs|
  {
    if gs != [] {
      GrowSafe(t[gs[0].key], gs[0].req, uid);
      CommitKeepsSafe(t[gs[0].key := Grow(t[gs[0].key], gs[0].req, uid)], gs[1..], uid);
    }
  }

  // ---------------------------------------------------------------- freeing

  /** Free resources in order; None when uid does not own one of them. */
  function FreeAll(t: Table, ks: seq<Key>, uid: nat): Option<Table>
    decreases |ks|
  {
    if ks == [] then Some(t)
    else if ks[0] in t && CanShrink(t[ks[0]], uid) then
      FreeAll(t[ks[0] := Shrink(t[ks[0]], uid)], ks[1..], uid)
    else None
  }

  /** How many times user u is an owner of a resource. */
  function Owns(r: Res, u: nat): nat { multiset(r.owners)[u] }

  /** How many times user u owns k through a list of keys held by uid. */
  function Share(ks: seq<Key>, uid: nat, k: Key, u: nat): nat {
    if ks == [] then 0 else (if ks[0] == k && u == uid then 1 else 0) + Share(ks[1..], uid, k, u)
  }

  function KeysOf(gs: seq<Grant>): seq<Key> { seq(|gs|, i requires 0 <= i < |gs| => gs[i].key) }

  lemma GrowOwns(r: Res, q: Req, uid: nat, u: nat)
    ensures Owns(Grow(r, q, uid), u) == Owns(r, u) + if u == uid then 1 else 0
  {
  }

  lemma ShrinkOwns(r: Res, uid: nat, u: nat)
    requires CanShrink(r, uid)
    ensures Owns(Shrink(r, uid), u) == Owns(r, u) - if u == uid then 1 else 0
  {
    RemoveFirstTakesOne(r.owners, uid);
  }

  /** A commit adds to each resource exactly the committer's share. */
  lemma {:induction false} CommitAddsShare(t: Table, gs: seq<Grant>, uid: nat, k: Key, u: nat)
    requires CommitAll(t, gs, uid).Some? && k in t
    ensures k in CommitAll(t, gs, uid).value
    ensures Owns(CommitAll(t, gs, uid).value[k], u) == Owns(t[k], u) + Share(KeysOf(gs), uid, k, u)
    decreases |gs|
  {
    if gs != [] {
      var t1 := t[gs[0].key := Grow(t[gs[0].key], gs[0].req, uid)];
      GrowOwns(t[gs[0].key], gs[0].req, uid, u);
      CommitAddsShare(t1, gs[1..], uid, k, u);
      assert KeysOf(gs)[0] == gs[0].key && KeysOf(gs)[1..] == KeysOf(gs[1..]);
    }
  }

  /** uid owns every key at least as often as ks lists it. */
  ghost predicate Covers(t: Table, ks: seq<Key>, uid: nat) {
    && (forall k <- ks :: k in t)
    && (forall k <- t :: Share(ks, uid, k, uid) <= Owns(t[k], uid))
  }

  lemma FreeOne(t: Table, ks: seq<Key>, uid: nat) returns (t1: Table)
    requires SafeTable(t) && ks != [] && Covers(t, ks, uid)
    ensures CanShrink(t[ks[0]], uid) && t1 == t[ks[0] := Shrink(t[ks[0]], uid)]
    ensures SafeTable(t1) && Covers(t1, ks[1..], uid) && SameHardware(t, t1)
  {
    var k0, rest := ks[0], ks[1..];
    assert k0 in t && Share(ks, uid, k0, uid) >= 1;
    ShrinkSafe(t[k0], uid);
    t1 := t[k0 := Shrink(t[k0], uid)];
    forall k <- t1
      ensures Share(rest, uid, k, uid) <= Owns(t1[k], uid)
    {
      assert Share(ks, uid, k, uid) <= Owns(t[k], uid);
      ShrinkOwns(t[k0], uid, uid);
    }
  }

  /** If uid owns enough of every key, freeing finds each owner it removes. */
  lemma {:induction false} FreeFindsOwners(t: Table, ks: seq<Key>, uid: nat)
    requires SafeTable(t) && Covers(t, ks, uid)
    ensures FreeAll(t, ks, uid).Some?
    ensures SafeTable(FreeAll(t, ks, uid).value) && SameHardware(t, FreeAll(t, ks, uid).value)
    decreases |ks|
  {
    if ks != [] {
      var t1 := FreeOne(t, ks, uid);
      FreeFindsOwners(t1, ks[1..], uid);
    }
  }

  /** Freeing takes away exactly the share. */
  lemma {:induction false} FreeTakesShare(t: Table, ks: seq<Key>, uid: nat, k: Key, u: nat)
    requires FreeAll(t, ks, uid).Some? && k in t
    ensures k in FreeAll(t, ks, uid).value
    ensures Owns(FreeAll(t, ks, uid).value[k], u) == Owns(t[k], u) - Share(ks, uid, k, u)
    decreases |ks|
  {
    if ks != [] {
      ShrinkOwns(t[ks[0]], uid, u);
      FreeTakesShare(t[ks[0] := Shrink(t[ks[0]], uid)], ks[1..], uid, k, u);
    }
  }

  /** How far freeing got. */
  datatype Freed = Freed(ok: bool, table: Table)

  /** Free keys in turn, up to the first that is not owned. */
  function FreeKeys(t: Table, ks: seq<Key>, uid: nat): Freed
    decreases |ks|
  {
    if ks == [] then Freed(true, t)
    else if ks[0] in t && CanShrink(t[ks[0]], uid) then FreeKeys(t[ks[0] := Shrink(t[ks[0]], uid)], ks[1..], uid)
    else Freed(false, t)
  }

  lemma {:induction false} FreeKeysIs(t: Table, ks: seq<Key>, uid: nat)
    ensures FreeAll(t, ks, uid) == if FreeKeys(t, ks, uid).ok then Some(FreeKeys(t, ks, uid).table) else None
    decreases |ks|
  {
    if ks != [] && ks[0] in t && CanShrink(t[ks[0]], uid) { FreeKeysIs(t[ks[0] := Shrink(t[ks[0]], uid)], ks[1..], uid); }
  }

  lemma {:induction false} FreeKeysAppend(t: Table, ks: seq<Key>, ls: seq<Key>, uid: nat)
    ensures var f := FreeKeys(t, ks, uid);
            FreeKeys(t, ks + ls, uid) == if f.ok then FreeKeys(f.table, ls, uid) else f
    decreases |ks|
  {
    if ks == [] {
      assert ks + ls == ls;
    } else {
      assert (ks + ls)[0] == ks[0] && (ks + ls)[1..] == ks[1..] + ls;
      if ks[0] in t && CanShrink(t[ks[0]], uid) { FreeKeysAppend(t[ks[0] := Shrink(t[ks[0]], uid)], ks[1..], ls, uid); }
    }
  }

  lemma {:induction false} FreeingStaysSafe(t: Table, ks: seq<Key>, uid: nat)
    requires SafeTable(t)
    ensures SafeTable(FreeKeys(t, ks, uid).table) && SameHardware(t, FreeKeys(t, ks, uid).table)
    decreases |ks|
  {
    if ks != [] && ks[0] in t && CanShrink(t[ks[0]], uid) {
      ShrinkSafe(t[ks[0]], uid);
      FreeingStaysSafe(t[ks[0] := Shrink(t[ks[0]], uid)], ks[1..], uid);
    }
  }

  // ------------------------------------------------------------------- runs

  /** What one allocation holds; freed allocations stay listed but hold nothing. */
  datatype Holding = Held(uid: nat, keys: seq<Key>) | Released

  datatype State = State(table: Table, live: seq<Holding>)

  datatype Event = Take(uid: nat, grants: seq<Grant>) | Give(index: nat)

  /** A refused event leaves the state as it was. */
  function Next(s: State, e: Event): State {
    match e
    case Take(uid, gs) =>
      (match CommitAll(s.table, gs, uid)
       case None => s
       case Some(t) => State(t, s.live + [Held(uid, KeysOf(gs))]))
    case Give(i) =>
      if i < |s.live| && s.live[i].Held? then
        (match FreeAll(s.table, s.live[i].keys, s.live[i].uid)
         case None => s
         case Some(t) => State(t, s.live[i := Released]))
      else s
  }

  function Run(s: State, es: seq<Event>): State
    decreases |es|
  {
    if es == [] then s else Run(Next(s, es[0]), es[1..])
  }

  /** How many times user u owns k through all live allocations. */
  function Owed(live: seq<Holding>, k: Key, u: nat): nat {
    if live == [] then 0
    else (if live[0].Held? then Share(live[0].keys, live[0].uid, k, u) else 0) + Owed(live[1..], k, u)
  }

  lemma {:induction false} OwedAppend(live: seq<Holding>, h: Holding, k: Key, u: nat)
    ensures Owed(live + [h], k, u) == Owed(live, k, u) + if h.Held? then Share(h.keys, h.uid, k, u) else 0
  {
    if live == [] {
      assert live + [h] == [h];
    } else {
      assert (live + [h])[0] == live[0] && (live + [h])[1..] == live[1..] + [h];
      OwedAppend(live[1..], h, k, u);
    }
  }

  lemma {:induction false} OwedRelease(live: seq<Holding>, i: nat, k: Key, u: nat)
    requires i < |live| && live[i].Held?
    ensures Owed(live, k, u) == Owed(live[i := Released], k, u) + Share(live[i].keys, live[i].uid, k, u)
  {
    var live' := live[i := Released];
    if i == 0 {
      assert live'[1..] == live[1..];
    } else {
      assert live'[0] == live[0] && live'[1..] == live[1..][i - 1 := Released];
      OwedRelease(live[1..], i - 1, k, u);
    }
  }

  ghost predicate OwnersMatch(init: Table, s: State)
    requires init.Keys == s.table.Keys
  {
    forall k, u: nat | k in init :: Owns(s.table[k], u) == Owns(init[k], u) + Owed(s.live, k, u)
  }

  /** Conservation: each resource's owners are its first owners plus what the
      live allocations hold, and live allocations hold known resources. */
  ghost predicate Conserved(init: Table, s: State) {
    && SafeTable(s.table) && SameHardware(init, s.table)
    && (forall h <- s.live :: KnownKeys(h, s.table))
    && OwnersMatch(init, s)
  }

  ghost predicate KnownKeys(h: Holding, t: Table) {
    h.Held? ==> forall k <- h.keys :: k in t
  }

  lemma TakeConserves(init: Table, s: State, uid: nat, gs: seq<Grant>)
    requires Conserved(init, s) && CommitAll(s.table, gs, uid).Some?
    ensures Conserved(init, Next(s, Take(uid, gs)))
  {
    var t', h := CommitAll(s.table, gs, uid).value, Held(uid, KeysOf(gs));
    var s' := State(t', s.live + [h]);
    CommitKeepsSafe(s.table, gs, uid);
    CommitByKey(s.table, gs, uid);
    forall k, u: nat | k in init
      ensures Owns(s'.table[k], u) == Owns(init[k], u) + Owed(s'.live, k, u)
    {
      CommitAddsShare(s.table, gs, uid, k, u);
      OwedAppend(s.live, h, k, u);
      assert Owns(s.table[k], u) == Owns(init[k], u) + Owed(s.live, k, u);
    }
    forall g <- s'.live
      ensures KnownKeys(g, t')
    {
      if g in s.live {
        assert KnownKeys(g, s.table);
      } else {
        assert g == h;
        KeysKnown(s.table, gs, uid);
      }
    }
  }

  lemma KeysKnown(t: Table, gs: seq<Grant>, uid: nat)
    requires CommitAll(t, gs, uid).Some?
    ensures forall k <- KeysOf(gs) :: k in t
  {
    CommitByKey(t, gs, uid);
    forall k <- KeysOf(gs)
      ensures k in t
    {
      var i :| 0 <= i < |gs| && KeysOf(gs)[i] == k;
      assert gs[i] in gs;
    }
  }

  lemma LiveIsCovered(init: Table, s: State, i: nat)
    requires Conserved(init, s) && i < |s.live| && s.live[i].Held?
    ensures Covers(s.table, s.live[i].keys, s.live[i].uid)
  {
    var h := s.live[i];
    assert h in s.live && KnownKeys(h, s.table);
    forall k <- s.table
      ensures Share(h.keys, h.uid, k, h.uid) <= Owns(s.table[k], h.uid)
    {
      OwedRelease(s.live, i, k, h.uid);
      assert Owns(s.table[k], h.uid) == Owns(init[k], h.uid) + Owed(s.live, k, h.uid);
    }
  }

  lemma GiveConserves(init: Table, s: State, i: nat)
    requires Conserved(init, s) && i < |s.live| && s.live[i].Held?
    ensures FreeAll(s.table, s.live[i].keys, s.live[i].uid).Some?
    ensures Conserved(init, Next(s, Give(i)))
  {
    var h := s.live[i];
    LiveIsCovered(init, s, i);
    FreeFindsOwners(s.table, h.keys, h.uid);
    var s' := State(FreeAll(s.table, h.keys, h.uid).value, s.live[i := Released]);
    assert s' == Next(s, Give(i));
    forall g <- s'.live
      ensures KnownKeys(g, s'.table)
    {
      assert g.Held? ==> g in s.live && KnownKeys(g, s.table);
    }
    forall k, u: nat | k in init
      ensures Owns(s'.table[k], u) == Owns(init[k], u) + Owed(s'.live, k, u)
    {
      FreeTakesShare(s.table, h.keys, h.uid, k, u);
      OwedRelease(s.live, i, k, u);
      assert Owns(s.table[k], u) == Owns(init[k], u) + Owed(s.live, k, u);
    }
  }

  lemma NextConserves(init: Table, s: State, e: Event)
    requires Conserved(init, s)
    ensures Conserved(init, Next(s, e))
  {
    match e {
      case Take(uid, gs) =>
        if CommitAll(s.table, gs, uid).Some? { TakeConserves(init, s, uid, gs); }
      case Give(i) =>
        if i < |s.live| && s.live[i].Held? { GiveConserves(init, s, i); }
    }
  }

  /** Over every run from a safe table owners are conserved and sharing stays
      safe, and every event that names a live allocation frees it. */
  lemma {:induction false} RunsConserve(init: Table, s: State, es: seq<Event>)
    requires Conserved(init, s)
    ensures Conserved(init, Run(s, es))
    decreases |es|
  {
    if es != [] {
      NextConserves(init, s, es[0]);
      RunsConserve(init, Next(s, es[0]), es[1..]);
    }
  }

  /** In every reachable state freeing a live allocation finds each owner it
      removes, so the allocation is gone afterwards. */
  lemma LiveCanBeFreed(init: Table, s: State, es: seq<Event>, i: nat)
    requires Conserved(init, s) && i < |Run(s, es).live| && Run(s, es).live[i].Held?
    ensures Next(Run(s, es), Give(i)).live == Run(s, es).live[i := Released]
  {
    RunsConserve(init, s, es);
    GiveConserves(init, Run(s, es), i);
  }

  ghost predicate Unowned(t: Table) {
    forall k <- t :: t[k].owners == [] && t[k].serverOwners == [] && !t[k].shared
  }

  lemma {:induction false} NothingOwed(live: seq<Holding>, k: Key, u: nat)
    requires forall h <- live :: h.Released?
    ensures Owed(live, k, u) == 0
  {
    if live != [] {
      assert live[0].Released?;
      NothingOwed(live[1..], k, u);
    }
  }

  /** Once every allocation of a run has been freed, in whatever order, a table
      that started unowned is back to exactly what it was. */
  lemma FreeingAllRestores(init: Table, es: seq<Event>)
    requires SafeTable(init) && Unowned(init)
    requires forall h <- Run(State(init, []), es).live :: h.Released?
    ensures Run(State(init, []), es).table == init
  {
    var s := Run(State(init, []), es);
    RunsConserve(init, State(init, []), es);
    forall k <- init
      ensures s.table[k] == init[k]
    {
      forall u: nat
        ensures Owns(s.table[k], u) == 0
      {
        NothingOwed(s.live, k, u);
        assert Owns(s.table[k], u) == Owns(init[k], u) + Owed(s.live, k, u);
      }
      FirstOwnerOwns(s.table[k]);
    }
  }

  lemma FirstOwnerOwns(r: Res)
    ensures r.owners == [] || Owns(r, r.owners[0]) > 0
  {
  }
}
