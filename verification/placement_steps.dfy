/** The three placement steps as the allocator runs them, and the copies of the
    free resources they work on. */
module PlacementSteps {
  import opened Resources
  import opened Ledger
  import opened Matchers
  import opened MatchingSteps
  import opened Planner
  import opened PlanningSteps
  import opened PlanTheorem
  import opened PlanSound

  // ----------------------------------------------------------- availability

  /** The nodes that may be used, and copies of what is free on them. */
  method FreeResources(t: Table, site: Site) returns (hosts: seq<string>, pool: Table)
    requires forall k :: k in t <==> k in site.order
    ensures hosts == Hosts(site.order, site) && pool == FreePool(t, site)
  {
    hosts, pool := [], map[];
    for n := 0 to |site.order|
      invariant hosts == Hosts(site.order[..n], site)
      invariant pool == map k | k in t && k in site.order[..n] && Eligible(site, k) && IsFree(t[k]) :: t[k]
    {
      var k := site.order[n];
      assert k in site.order;
      assert site.order[..n + 1][..n] == site.order[..n] && site.order[..n + 1][n] == k;
      assert forall j :: j in site.order[..n + 1] <==> j == k || j in site.order[..n];
      if Eligible(site, k) {
        if k.host !in hosts { hosts := hosts + [k.host]; }
        if IsFree(t[k]) { pool := pool[k := t[k]]; }
      }
    }
    assert site.order[..|site.order|] == site.order;
  }

  lemma {:induction false} FreeOnAppend(order: seq<Key>, k: Key, pool: Table, host: string)
    ensures FreeOn(order + [k], pool, host)
         == FreeOn(order, pool, host) + if k.host == host && k in pool && IsFree(pool[k]) then [pool[k]] else []
  {
    if order == [] {
      assert [k][1..] == [];
    } else {
      assert (order + [k])[0] == order[0] && (order + [k])[1..] == order[1..] + [k];
      FreeOnAppend(order[1..], k, pool, host);
    }
  }

  lemma {:induction false} FreeOnStillFree(order: seq<Key>, full: Table, host: string)
    ensures FreeOn(order, StillFree(full), host) == FreeOn(order, full, host)
  {
    if order != [] { FreeOnStillFree(order[1..], full, host); }
  }

  /** The availability list of each node. */
  method AvailLists(order: seq<Key>, pool: Table, hosts: seq<string>, ghost full: Table) returns (avail: seq<NodeAvail>)
    requires pool == StillFree(full)
    ensures avail == AvailOn(order, full, hosts)
  {
    avail := [];
    for n := 0 to |hosts|
      invariant avail == AvailOn(order, full, hosts[..n])
    {
      var free := [];
      for i := 0 to |order|
        invariant free == FreeOn(order[..i], pool, hosts[n])
      {
        assert order[..i + 1] == order[..i] + [order[i]];
        FreeOnAppend(order[..i], order[i], pool, hosts[n]);
        if order[i].host == hosts[n] && order[i] in pool { free := free + [pool[order[i]]]; }
      }
      assert order[..|order|] == order;
      FreeOnStillFree(order, full, hosts[n]);
      avail := avail + [NodeAvail(hosts[n], free)];
    }
    assert hosts[..|hosts|] == hosts;
  }

  lemma FixedIn(groups: seq<Group>, d: nat)
    ensures InRange(WithDOF(groups, d, 0), |groups|)
    ensures FixedOver(groups, WithDOF(groups, d, 0)) == FixedWithDOF(groups, d)
  {
    assert groups[0..] == groups;
    FixedOverDOF(groups, d, 0);
  }

  function FixedUpTo(groups: seq<Group>, d: nat): seq<Req> {
    if d == 0 then [] else FixedUpTo(groups, d - 1) + FixedWithDOF(groups, d - 1)
  }

  lemma FixedUpToFour(groups: seq<Group>, n: nat)
    requires n == 4
    ensures FixedUpTo(groups, n) == FixedByDOF(groups)
  {
    var a, b, c, d := FixedWithDOF(groups, 0), FixedWithDOF(groups, 1), FixedWithDOF(groups, 2), FixedWithDOF(groups, 3);
    assert FixedUpTo(groups, 1) == a && FixedUpTo(groups, 2) == a + b && FixedUpTo(groups, 3) == a + b + c;
  }

  lemma {:induction false} RefusedForGood(pool: Table, groups: seq<Group>, d: nat, e: nat, uid: nat)
    requires d <= e && TakenUpTo(pool, groups, d, uid).None?
    ensures TakenUpTo(pool, groups, e, uid).None?
    decreases e
  {
    if d < e {
      RefusedForGood(pool, groups, d, e - 1, uid);
      GrantsOfAppend(FixedUpTo(groups, e - 1), FixedWithDOF(groups, e - 1));
      CommitAppend(pool, GrantsOf(FixedUpTo(groups, e - 1)), GrantsOf(FixedWithDOF(groups, e - 1)), uid);
    }
  }

  /** The pool after the fixed requests of the groups with fewer than d degrees of freedom. */
  function TakenUpTo(pool: Table, groups: seq<Group>, d: nat, uid: nat): Option<Table> {
    CommitAll(pool, GrantsOf(FixedUpTo(groups, d)), uid)
  }

  lemma TakenNone(pool: Table, groups: seq<Group>, uid: nat, d: nat)
    requires d == 0
    ensures TakenUpTo(pool, groups, d, uid) == Some(pool)
  {
  }

  /** Take the fixed requests of the groups with d degrees of freedom out of the pool. */
  method TakeDegree(pool0: Table, groups: seq<Group>, todo: seq<nat>, d: nat, uid: nat, ghost full0: Table)
    returns (ok: bool, pool: Table, ghost full: Table)
    requires pool0 == StillFree(full0) && FixedKeyed(groups) && todo == WithDOF(groups, d, 0)
    ensures CommitAll(full0, GrantsOf(FixedWithDOF(groups, d)), uid) == if ok then Some(full) else None
    ensures ok ==> pool == StillFree(full)
  {
    FixedIn(groups, d);
    ok, pool, full := TakeFixed(pool0, groups, todo, uid, full0);
  }

  /** Take the fixed requests out of the pool, by degrees of freedom. */
  method TakeEachFixed(pool0: Table, groups: seq<Group>, byDOF: seq<seq<nat>>, uid: nat) returns (ok: bool, pool: Table, ghost full: Table)
    requires pool0 == StillFree(pool0) && FixedKeyed(groups)
    requires forall d | 0 <= d < |byDOF| :: byDOF[d] == WithDOF(groups, d, 0)
    ensures TakenUpTo(pool0, groups, |byDOF|, uid) == if ok then Some(full) else None
    ensures ok ==> pool == StillFree(full)
  {
    pool, full := pool0, pool0;
    TakenNone(pool0, groups, uid, 0);
    for d := 0 to |byDOF|
      invariant pool == StillFree(full) && TakenUpTo(pool0, groups, d, uid) == Some(full)
    {
      FixedUpToNext(pool0, groups, d, full, uid);
      ok, pool, full := TakeDegree(pool, groups, byDOF[d], d, uid, full);
      if !ok {
        RefusedForGood(pool0, groups, d + 1, |byDOF|, uid);
        return;
      }
    }
    ok := true;
  }

  method TakeAllFixed(pool0: Table, groups: seq<Group>, byDOF: seq<seq<nat>>, uid: nat) returns (ok: bool, pool: Table, ghost full: Table)
    requires pool0 == StillFree(pool0) && FixedKeyed(groups)
    requires |byDOF| == 4 && forall d | 0 <= d < 4 :: byDOF[d] == WithDOF(groups, d, 0)
    ensures CommitAll(pool0, GrantsOf(FixedByDOF(groups)), uid) == if ok then Some(full) else None
    ensures ok ==> pool == StillFree(full)
  {
    FixedUpToFour(groups, |byDOF|);
    ok, pool, full := TakeEachFixed(pool0, groups, byDOF, uid);
  }

  lemma FixedUpToNext(pool: Table, groups: seq<Group>, d: nat, full: Table, uid: nat)
    requires TakenUpTo(pool, groups, d, uid) == Some(full)
    ensures TakenUpTo(pool, groups, d + 1, uid) == CommitAll(full, GrantsOf(FixedWithDOF(groups, d)), uid)
  {
    GrantsOfAppend(FixedUpTo(groups, d), FixedWithDOF(groups, d));
    CommitAppend(pool, GrantsOf(FixedUpTo(groups, d)), GrantsOf(FixedWithDOF(groups, d)), uid);
  }

  /** Lists that are fixed throughout are answered by themselves. */
  method ChooseFixed(groups: seq<Group>, fixed: seq<nat>) returns (chosen: seq<Option<seq<Req>>>)
    requires fixed == WithDOF(groups, 0, 0)
    ensures chosen == StartChosen(groups)
  {
    WithDOFBounds(groups, 0, 0);
    chosen := seq(|groups|, _ => None);
    for n := 0 to |fixed|
      invariant |chosen| == |groups|
      invariant forall j | 0 <= j < n :: chosen[fixed[j]].Some?
      invariant forall i | 0 <= i < |groups| && chosen[i].Some? :: GroupDOF(groups[i]) == 0 && chosen[i].value == GroupReqs(groups[i])
    {
      chosen := chosen[fixed[n] := Some(GroupReqs(groups[fixed[n]]))];
    }
    forall i | 0 <= i < |groups| && GroupDOF(groups[i]) == 0
      ensures chosen[i].Some?
    {
      var j :| 0 <= j < |fixed| && fixed[j] == i;
    }
  }

  /** Copy what is free and take the fixed requests. */
  method StartPlan(t: Table, site: Site, groups: seq<Group>, byDOF: seq<seq<nat>>, uid: nat) returns (o: Outcome<PlanState>)
    requires (forall k :: k in t <==> k in site.order) && FixedKeyed(groups)
    requires |byDOF| == 4 && forall d | 0 <= d < 4 :: byDOF[d] == WithDOF(groups, d, 0)
    ensures o == Start(t, site, groups, uid)
  {
    var hosts, pool := FreeResources(t, site);
    var chosen := ChooseFixed(groups, byDOF[0]);
    assert pool == StillFree(pool);
    var ok, left, full := TakeAllFixed(pool, groups, byDOF, uid);
    if !ok { return Raised(CommitFailed); }
    var avail := AvailLists(site.order, left, hosts, full);
    o := Done(PlanState(groups, avail, chosen));
  }

  // ---------------------------------------------------------------- filling

  /** Where picks end up: at the places with freedom, in order. */
  lemma {:induction false} FillAt(reqs: seq<Req>, picks: seq<Req>, i: nat)
    requires |picks| == |FreeOf(reqs)| && i < |reqs|
    ensures |Fill(reqs, picks)| == |reqs|
    ensures DOF(reqs[i]) == 0 ==> Fill(reqs, picks)[i] == reqs[i]
    ensures DOF(reqs[i]) != 0 ==> |FreeOf(reqs[..i])| < |picks| && Fill(reqs, picks)[i] == picks[|FreeOf(reqs[..i])|]
    decreases |reqs|
  {
    FillLength(reqs, picks);
    if i > 0 {
      var fixed := DOF(reqs[0]) == 0;
      assert FreeOf(reqs) == (if fixed then [] else [reqs[0]]) + FreeOf(reqs[1..]);
      var later := if fixed then picks else picks[1..];
      FillAt(reqs[1..], later, i - 1);
      assert reqs[..i][0] == reqs[0] && reqs[..i][1..] == reqs[1..][..i - 1];
      assert FreeOf(reqs[..i]) == (if fixed then [] else [reqs[0]]) + FreeOf(reqs[1..][..i - 1]);
    } else {
      assert reqs[..0] == [];
    }
  }

  lemma {:induction false} FillLength(reqs: seq<Req>, picks: seq<Req>)
    ensures |Fill(reqs, picks)| == |reqs|
    decreases |reqs|
  {
    if reqs != [] {
      if DOF(reqs[0]) == 0 { FillLength(reqs[1..], picks); }
      else if picks != [] { FillLength(reqs[1..], picks[1..]); }
    }
  }

  /** Put picks into the holes of a classified list. */
  method FillHoles(final: seq<Option<Req>>, holes: seq<nat>, picks: seq<Req>, ghost reqs: seq<Req>) returns (done: seq<Req>)
    requires |final| == |reqs| && |picks| == |holes| == |FreeOf(reqs)| && HolesOf(reqs, holes)
    requires forall i | 0 <= i < |reqs| :: final[i] == if DOF(reqs[i]) == 0 then Some(reqs[i]) else None
    ensures done == Fill(reqs, picks)
  {
    forall j | 0 <= j < |holes| ensures |FreeOf(reqs[..holes[j]])| == j { HoleRank(reqs, holes, j); }
    var filled := final;
    ghost var goal := Fill(reqs, picks);
    forall i | 0 <= i < |reqs|
      ensures |goal| == |reqs|
      ensures if DOF(reqs[i]) == 0 then goal[i] == reqs[i] else |FreeOf(reqs[..i])| < |picks| && goal[i] == picks[|FreeOf(reqs[..i])|]
    {
      FillAt(reqs, picks, i);
    }
    FillLength(reqs, picks);
    for n := 0 to |picks|
      invariant |filled| == |reqs|
      invariant forall i | 0 <= i < |reqs| :: filled[i] == if final[i].Some? || i in holes[..n] then Some(goal[i]) else None
    {
      assert forall i :: i in holes[..n + 1] <==> i == holes[n] || i in holes[..n];
      filled := filled[holes[n] := Some(picks[n])];
    }
    assert holes[..|picks|] == holes;
    done := seq(|filled|, i requires 0 <= i < |filled| && filled[i].Some? => filled[i].value);
  }

  // ---------------------------------------------- step 2: lists with indices

  function RefsOver(groups: seq<Group>, todo: seq<nat>, host: string): seq<Ref>
    requires InRange(todo, |groups|)
  {
    if todo == [] then [] else RefsIn(GroupReqs(groups[todo[0]]), todo[0], 0, host) + RefsOver(groups, todo[1..], host)
  }

  lemma {:induction false} RefsOverIs(groups: seq<Group>, g: nat, host: string)
    requires g <= |groups|
    ensures InRange(WithDOF(groups, 2, g), |groups|)
    ensures RefsOver(groups, WithDOF(groups, 2, g), host) == RefsFor(groups, g, host)
    decreases |groups| - g
  {
    if g < |groups| {
      RefsOverIs(groups, g + 1, host);
      var rest, later := WithDOF(groups, 2, g + 1), RefsFor(groups, g + 1, host);
      if GroupDOF(groups[g]) == 2 {
        RefsOverCons(groups, g, rest, host);
      } else {
        assert [] + rest == rest && [] + later == later;
      }
    }
  }

  lemma RefsOverCons(groups: seq<Group>, g: nat, rest: seq<nat>, host: string)
    requires g < |groups| && InRange(rest, |groups|)
    ensures InRange([g] + rest, |groups|)
    ensures RefsOver(groups, [g] + rest, host) == RefsIn(GroupReqs(groups[g]), g, 0, host) + RefsOver(groups, rest, host)
  {
    assert ([g] + rest)[1..] == rest;
  }

  function Waiting(waiting: map<string, seq<Ref>>, host: string): seq<Ref> {
    if host in waiting then waiting[host] else []
  }

  /** The dictionary after the first n lists. */
  ghost predicate RefsSoFar(groups: seq<Group>, todo: seq<nat>, n: nat, waiting: map<string, seq<Ref>>)
    requires InRange(todo, |groups|) && n <= |todo|
  {
    forall h :: Waiting(waiting, h) + RefsOver(groups, todo[n..], h) == RefsOver(groups, todo, h)
  }

  lemma NoRefs(groups: seq<Group>, todo: seq<nat>, none: map<string, seq<Ref>>)
    requires InRange(todo, |groups|) && none == map[]
    ensures RefsSoFar(groups, todo, 0, none)
  {
    assert todo[0..] == todo;
    forall h ensures Waiting(none, h) + RefsOver(groups, todo[0..], h) == RefsOver(groups, todo, h) {}
  }

  lemma NextRefs(groups: seq<Group>, todo: seq<nat>, n: nat, before: map<string, seq<Ref>>, waiting: map<string, seq<Ref>>)
    requires InRange(todo, |groups|) && n < |todo| && RefsSoFar(groups, todo, n, before)
    requires forall h :: Waiting(waiting, h) == Waiting(before, h) + RefsIn(GroupReqs(groups[todo[n]]), todo[n], 0, h)
    ensures RefsSoFar(groups, todo, n + 1, waiting)
  {
    forall h
      ensures Waiting(waiting, h) + RefsOver(groups, todo[n + 1..], h) == RefsOver(groups, todo, h)
    {
      RefsOverNext(groups, todo, n, h);
      Regrouped(Waiting(before, h), RefsIn(GroupReqs(groups[todo[n]]), todo[n], 0, h), RefsOver(groups, todo[n + 1..], h));
    }
  }

  lemma RefsOverNext(groups: seq<Group>, todo: seq<nat>, n: nat, h: string)
    requires InRange(todo, |groups|) && n < |todo|
    ensures RefsOver(groups, todo[n..], h) == RefsIn(GroupReqs(groups[todo[n]]), todo[n], 0, h) + RefsOver(groups, todo[n + 1..], h)
  {
    assert todo[n..][0] == todo[n] && todo[n..][1..] == todo[n + 1..];
  }

  lemma Regrouped<T>(a: seq<T>, b: seq<T>, c: seq<T>)
    ensures a + (b + c) == (a + b) + c
  {
  }

  lemma AllRefs(groups: seq<Group>, hosted: seq<nat>, waiting: map<string, seq<Ref>>)
    requires InRange(hosted, |groups|) && hosted == WithDOF(groups, 2, 0)
    requires RefsSoFar(groups, hosted, |hosted|, waiting)
    ensures forall h :: Waiting(waiting, h) == RefsFor(groups, 0, h)
  {
    forall h
      ensures Waiting(waiting, h) == RefsFor(groups, 0, h)
    {
      RefsOverIs(groups, 0, h);
      assert hosted[|hosted|..] == [] && Waiting(waiting, h) + [] == Waiting(waiting, h);
      assert Waiting(waiting, h) + RefsOver(groups, [], h) == RefsOver(groups, hosted, h);
    }
  }

  /** The requests that wait for a resource of each host. */
  method RefsByHost(groups: seq<Group>, hosted: seq<nat>) returns (waiting: map<string, seq<Ref>>)
    requires hosted == WithDOF(groups, 2, 0)
    ensures forall h :: Waiting(waiting, h) == RefsFor(groups, 0, h)
    ensures forall h <- waiting :: waiting[h] != []
  {
    waiting := map[];
    WithDOFBounds(groups, 2, 0);
    NoRefs(groups, hosted, waiting);
    for n := 0 to |hosted|
      invariant forall h <- waiting :: waiting[h] != []
      invariant RefsSoFar(groups, hosted, n, waiting)
    {
      ghost var before := waiting;
      waiting := AddRefs(waiting, GroupReqs(groups[hosted[n]]), hosted[n]);
      NextRefs(groups, hosted, n, before, waiting);
    }
    AllRefs(groups, hosted, waiting);
  }

  /** The dictionary after the first p requests of a list. */
  ghost predicate RefsAdded(before: map<string, seq<Ref>>, reqs: seq<Req>, g: nat, p: nat, waiting: map<string, seq<Ref>>)
    requires p <= |reqs|
  {
    && (forall h <- waiting :: waiting[h] != [])
    && (forall h :: RefsAddedFor(before, reqs, g, p, waiting, h))
  }

  ghost predicate RefsAddedFor(before: map<string, seq<Ref>>, reqs: seq<Req>, g: nat, p: nat, waiting: map<string, seq<Ref>>, h: string)
    requires p <= |reqs|
  {
    Waiting(waiting, h) + RefsIn(reqs, g, p, h) == Waiting(before, h) + RefsIn(reqs, g, 0, h)
  }

  function WithRef(w: map<string, seq<Ref>>, host: string, r: Ref): map<string, seq<Ref>> {
    w[host := Waiting(w, host) + [r]]
  }

  lemma RefCounted(w: map<string, seq<Ref>>, reqs: seq<Req>, g: nat, p: nat, h: string)
    requires p < |reqs| && DOF(reqs[p]) == 2
    ensures reqs[p].host.Some?
    ensures Waiting(WithRef(w, reqs[p].host.value, Ref(g, p)), h) + RefsIn(reqs, g, p + 1, h) == Waiting(w, h) + RefsIn(reqs, g, p, h)
  {
    RefsInNext(reqs, g, p, h);
    var host, later := reqs[p].host.value, RefsIn(reqs, g, p + 1, h);
    WithRefWaits(w, host, Ref(g, p), h);
    if h == host {
      Regrouped(Waiting(w, h), [Ref(g, p)], later);
    } else {
      assert [] + later == later;
    }
  }

  lemma WithRefWaits(w: map<string, seq<Ref>>, host: string, r: Ref, h: string)
    ensures Waiting(WithRef(w, host, r), h) == if h == host then Waiting(w, h) + [r] else Waiting(w, h)
  {
  }

  lemma RefsInNext(reqs: seq<Req>, g: nat, p: nat, h: string)
    requires p < |reqs| && DOF(reqs[p]) == 2
    ensures RefsIn(reqs, g, p, h) == (if reqs[p].host.value == h then [Ref(g, p)] else []) + RefsIn(reqs, g, p + 1, h)
  {
  }

  lemma NotCounted(reqs: seq<Req>, g: nat, p: nat, h: string)
    requires p < |reqs| && DOF(reqs[p]) != 2
    ensures RefsIn(reqs, g, p, h) == RefsIn(reqs, g, p + 1, h)
  {
    assert [] + RefsIn(reqs, g, p + 1, h) == RefsIn(reqs, g, p + 1, h);
  }

  lemma NextRefAdded(before: map<string, seq<Ref>>, reqs: seq<Req>, g: nat, p: nat, w: map<string, seq<Ref>>)
    requires p < |reqs| && RefsAdded(before, reqs, g, p, w)
    ensures DOF(reqs[p]) == 2 ==> reqs[p].host.Some? && RefsAdded(before, reqs, g, p + 1, WithRef(w, reqs[p].host.value, Ref(g, p)))
    ensures DOF(reqs[p]) != 2 ==> RefsAdded(before, reqs, g, p + 1, w)
  {
    var next := p + 1;
    if DOF(reqs[p]) == 2 {
      var waiting := WithRef(w, reqs[p].host.value, Ref(g, p));
      forall h
        ensures RefsAddedFor(before, reqs, g, next, waiting, h)
      {
        assert RefsAddedFor(before, reqs, g, p, w, h);
        RefCounted(w, reqs, g, p, h);
      }
    } else {
      forall h
        ensures RefsAddedFor(before, reqs, g, next, w, h)
      {
        assert RefsAddedFor(before, reqs, g, p, w, h);
        NotCounted(reqs, g, p, h);
      }
    }
  }

  method AddRefs(before: map<string, seq<Ref>>, reqs: seq<Req>, g: nat) returns (waiting: map<string, seq<Ref>>)
    requires forall h <- before :: before[h] != []
    ensures forall h <- waiting :: waiting[h] != []
    ensures forall h :: Waiting(waiting, h) == Waiting(before, h) + RefsIn(reqs, g, 0, h)
  {
    waiting := before;
    for p := 0 to |reqs|
      invariant RefsAdded(before, reqs, g, p, waiting)
    {
      NextRefAdded(before, reqs, g, p, waiting);
      if DOF(reqs[p]) == 2 {
        var host := reqs[p].host.value;
        waiting := waiting[host := (if host in waiting then waiting[host] else []) + [Ref(g, p)]];
      }
    }
    forall h ensures Waiting(waiting, h) == Waiting(before, h) + RefsIn(reqs, g, 0, h) {
      assert RefsAddedFor(before, reqs, g, |reqs|, waiting, h);
      assert Waiting(waiting, h) + [] == Waiting(waiting, h);
    }
  }

  lemma {:induction false} RefsInOf(reqs: seq<Req>, g: nat, p: nat, host: string)
    requires p <= |reqs|
    ensures forall r <- RefsIn(reqs, g, p, host) :: r.g == g
    decreases |reqs| - p
  {
    if p < |reqs| { RefsInOf(reqs, g, p + 1, host); }
  }

  /** Only host-only lists wait. */
  lemma {:induction false} RefsAreHosted(groups: seq<Group>, g: nat, host: string)
    requires g <= |groups|
    ensures forall r <- RefsFor(groups, g, host) :: r.g < |groups| && GroupDOF(groups[r.g]) == 2
    decreases |groups| - g
  {
    if g < |groups| {
      RefsInOf(GroupReqs(groups[g]), g, 0, host);
      RefsAreHosted(groups, g + 1, host);
    }
  }

  lemma {:induction false} WriteElsewhere(groups: seq<Group>, refs: seq<Ref>, qs: seq<Req>, g: nat)
    requires g < |groups| && forall r <- refs :: r.g != g
    ensures WriteRefs(groups, refs, qs)[g] == groups[g]
    decreases |refs|
  {
    if refs != [] && qs != [] {
      assert refs[0] in refs;
      WriteElsewhere(WriteRef(groups, refs[0], qs[0]), refs[1..], qs[1..], g);
    }
  }

  /** Try the nodes in turn for a list with indices. */
  method TryNodesIndexed(groups0: seq<Group>, waiting: map<string, seq<Ref>>, st0: PlanState, g: nat, uid: nat)
    returns (o: Outcome<PlanState>)
    requires Shaped(st0) && g < |st0.groups| && |groups0| == |st0.groups| && GroupDOF(groups0[g]) == 1
    requires forall h :: Waiting(waiting, h) == RefsFor(groups0, 0, h)
    requires forall h <- waiting :: waiting[h] != []
    ensures o == TryIndexed(groups0, st0, g, 0, uid)
  {
    var st, reqs := st0, GroupReqs(st0.groups[g]);
    var final, free, holes := ClassifyRes(reqs);
    for n := 0 to |st0.avail|
      invariant Shaped(st) && |st.groups| == |st0.groups| && st.avail == st0.avail && st.groups[g] == st0.groups[g]
      invariant TryIndexed(groups0, st0, g, 0, uid) == TryIndexed(groups0, st, g, n, uid)
    {
      var node := st.avail[n];
      var moved := CopyWithThisNodeName(free, node.name);
      var matched, rest := ResourceMatchDOF0(moved, node.res, uid);
      if matched.None? { continue; }
      assert Waiting(waiting, node.name) == RefsFor(groups0, 0, node.name);
      if node.name in waiting {
        var refs := waiting[node.name];
        var look := ResourceMatchDOF2(ReadRefs(st.groups, refs), rest, uid);
        RefsAreHosted(groups0, 0, node.name);
        WriteElsewhere(st.groups, refs, look.reqs, g);
        st := st.(groups := WriteRefs(st.groups, refs, look.reqs));
        match look {
          case NoMatch(_) => continue;
          case Unhandled(_) => return Raised(InternalError);
          case Matched(_, _) =>
        }
      }
      var done := FillHoles(final, holes, matched.value, reqs);
      return Done(Accept(st, g, n, done, rest));
    }
    o := Raised(UserError);
  }

  ghost predicate AllIndexed(groups0: seq<Group>, todo: seq<nat>) {
    forall i | 0 <= i < |todo| :: todo[i] < |groups0| && GroupDOF(groups0[todo[i]]) == 1
  }

  method PlaceEachIndexed(site: Site, groups0: seq<Group>, waiting: map<string, seq<Ref>>, st0: PlanState, todo: seq<nat>, uid: nat)
    returns (o: Outcome<PlanState>)
    requires Shaped(st0) && |groups0| == |st0.groups| && InRange(todo, |st0.groups|) && AllIndexed(groups0, todo)
    requires forall h :: Waiting(waiting, h) == RefsFor(groups0, 0, h)
    requires forall h <- waiting :: waiting[h] != []
    ensures o == PlaceIndexed(site, groups0, st0, todo, uid)
  {
    var st := st0;
    for n := 0 to |todo|
      invariant Shaped(st) && |st.groups| == |st0.groups|
      invariant PlaceIndexed(site, groups0, st0, todo, uid) == PlaceIndexed(site, groups0, st, todo[n..], uid)
    {
      assert todo[n..][0] == todo[n] && todo[n..][1..] == todo[n + 1..];
      st := st.(avail := SortAvail(site, st.avail));
      var one := TryNodesIndexed(groups0, waiting, st, todo[n], uid);
      match one {
        case Raised(e) => return one;
        case Done(st') => st := st';
      }
    }
    o := Done(st);
  }

  /** Step 2: place the lists that have indices but no host. */
  method PlaceIndexedLists(site: Site, groups0: seq<Group>, st0: PlanState, byDOF: seq<seq<nat>>, uid: nat) returns (o: Outcome<PlanState>)
    requires Shaped(st0) && |groups0| == |st0.groups|
    requires |byDOF| == 4 && forall d | 0 <= d < 4 :: byDOF[d] == WithDOF(groups0, d, 0)
    ensures InRange(byDOF[1], |st0.groups|) && o == PlaceIndexed(site, groups0, st0, byDOF[1], uid)
  {
    var waiting := RefsByHost(groups0, byDOF[2]);
    WithDOFBounds(groups0, 1, 0);
    o := PlaceEachIndexed(site, groups0, waiting, st0, byDOF[1], uid);
  }

  // ------------------------------------------------- step 3: lists with a host

  method FindNode(avail: seq<NodeAvail>, name: string) returns (n: nat)
    ensures n == NodeIndex(avail, name)
  {
    n := 0;
    while n < |avail| && avail[n].name != name
      invariant n <= |avail| && NodeIndex(avail, name) == n + NodeIndex(avail[n..], name)
    {
      assert avail[n..][1..] == avail[n + 1..];
      n := n + 1;
    }
  }

  method PlaceOnItsHost(st: PlanState, g: nat, uid: nat) returns (o: Outcome<PlanState>)
    requires Shaped(st) && g < |st.groups|
    ensures o == PlaceOnHost(st, g, uid)
  {
    var reqs := GroupReqs(st.groups[g]);
    var final, free, holes := ClassifyRes(reqs);
    if |free| == 0 { return Raised(InternalError); }
    if free[0].host.None? { return Raised(UserError); }
    var n := FindNode(st.avail, free[0].host.value);
    if n == |st.avail| { return Raised(UserError); }
    var m := ResourceMatchDOF2(free, SortRes(st.avail[n].res), uid);
    match m {
      case NoMatch(_) => o := Raised(InternalError);
      case Unhandled(_) => o := Raised(InternalError);
      case Matched(picks, rest) =>
        MatchKeepsLength(free, SortRes(st.avail[n].res), uid);
        var done := FillHoles(final, holes, picks, reqs);
        o := Done(Accept(st.(groups := st.groups[g := Reqs(done)]), g, n, done, rest));
    }
  }

  lemma MatchKeepsLength(reqs: seq<Req>, avail: seq<Res>, uid: nat)
    ensures |MatchPartly(reqs, avail, uid).reqs| == |reqs|
  {
    if MatchFixed(FixedOf(reqs), avail, uid).Some? {
      AssignFreeFills(reqs, ByClass(MatchFixed(FixedOf(reqs), avail, uid).value), uid);
    }
  }

  /** Step 3: place the lists whose host is given. */
  method PlaceHostedLists(st0: PlanState, todo: seq<nat>, uid: nat) returns (o: Outcome<PlanState>)
    requires Shaped(st0) && InRange(todo, |st0.groups|)
    ensures o == PlaceHosted(st0, todo, uid)
  {
    var st := st0;
    for n := 0 to |todo|
      invariant Shaped(st) && |st.groups| == |st0.groups|
      invariant PlaceHosted(st0, todo, uid) == PlaceHosted(st, todo[n..], uid)
    {
      assert todo[n..][0] == todo[n] && todo[n..][1..] == todo[n + 1..];
      var one := PlaceOnItsHost(st, todo[n], uid);
      match one {
        case Raised(e) => return one;
        case Done(st') => st := st';
      }
    }
    o := Done(st);
  }

  // ------------------------------------- step 4: lists and nodes anywhere

  lemma {:induction false} DropEmptyAppend(avail: seq<NodeAvail>, a: NodeAvail)
    ensures DropEmpty(avail + [a]) == DropEmpty(avail) + if a.res == [] then [] else [a]
  {
    if avail == [] {
      assert [a][1..] == [];
    } else {
      assert (avail + [a])[0] == avail[0] && (avail + [a])[1..] == avail[1..] + [a];
      DropEmptyAppend(avail[1..], a);
    }
  }

  method DropEmptyNodes(avail: seq<NodeAvail>) returns (left: seq<NodeAvail>)
    ensures left == DropEmpty(avail)
  {
    left := [];
    for n := 0 to |avail|
      invariant left == DropEmpty(avail[..n])
    {
      assert avail[..n + 1] == avail[..n] + [avail[n]];
      DropEmptyAppend(avail[..n], avail[n]);
      if |avail[n].res| > 0 { left := left + [avail[n]]; }
    }
    assert avail[..|avail|] == avail;
  }

  method TryNodesAnywhere(st: PlanState, g: nat, uid: nat) returns (o: Outcome<PlanState>)
    requires Shaped(st) && g < |st.groups|
    ensures o == TryAnywhere(st, g, 0, uid)
  {
    var reqs := GroupReqs(st.groups[g]);
    var final, free, holes := ClassifyRes(reqs);
    for n := 0 to |st.avail|
      invariant TryAnywhere(st, g, 0, uid) == TryAnywhere(st, g, n, uid)
    {
      var moved := CopyWithThisNodeName(free, st.avail[n].name);
      var m := ResourceMatchDOF2(moved, st.avail[n].res, uid);
      MatchKeepsLength(moved, st.avail[n].res, uid);
      match m {
        case NoMatch(_) =>
        case Unhandled(_) => return Raised(InternalError);
        case Matched(picks, rest) =>
          var done := FillHoles(final, holes, picks, reqs);
          return Done(Accept(st, g, n, done, rest));
      }
    }
    o := Raised(UserError);
  }

  /** Look for each wanted resource among those not yet matched. */
  method MatchWanted(wants: seq<Req>, res: seq<Res>) returns (ok: bool)
    ensures ok == HasWanted(wants, res)
  {
    var unmatched := res;
    for n := 0 to |wants|
      invariant HasWanted(wants, res) == HasWanted(wants[n..], unmatched)
    {
      var i := 0;
      while i < |unmatched| && !TypeSearchMatch(unmatched[i].attrs, wants[n])
        invariant 0 <= i <= |unmatched|
        invariant forall j | 0 <= j < i :: !TypeSearchMatch(unmatched[j].attrs, wants[n])
      {
        i := i + 1;
      }
      FirstOfTypeIs(unmatched, wants[n], i);
      assert wants[n..][0] == wants[n] && wants[n..][1..] == wants[n + 1..];
      if i == |unmatched| { return false; }
      unmatched := unmatched[..i] + unmatched[i + 1..];
    }
    ok := true;
  }

  lemma FirstOfTypeIs(rs: seq<Res>, q: Req, i: nat)
    requires i <= |rs| && (i < |rs| ==> TypeSearchMatch(rs[i].attrs, q))
    requires forall j | 0 <= j < i :: !TypeSearchMatch(rs[j].attrs, q)
    ensures FirstOfType(rs, q) == i
  {
  }

  lemma {:induction false} TotalWeightAppend(rs: seq<Res>, r: Res)
    ensures TotalWeight(rs + [r]) == TotalWeight(rs) + Weight(r)
  {
    if rs == [] {
      assert [r][1..] == [];
    } else {
      assert (rs + [r])[0] == rs[0] && (rs + [r])[1..] == rs[1..] + [r];
      TotalWeightAppend(rs[1..], r);
    }
  }

  method SumWeights(rs: seq<Res>) returns (sum: int)
    ensures sum == TotalWeight(rs)
  {
    sum := 0;
    for n := 0 to |rs|
      invariant sum == TotalWeight(rs[..n])
    {
      assert rs[..n + 1] == rs[..n] + [rs[n]];
      TotalWeightAppend(rs[..n], rs[n]);
      sum := sum + Weight(rs[n]);
    }
    assert rs[..|rs|] == rs;
  }

  method TryNodesWhole(site: Site, st: PlanState, g: nat, wants: seq<Req>) returns (o: Outcome<PlanState>)
    requires Shaped(st) && g < |st.groups|
    ensures o == TryWholeNode(site, st, g, wants, 0)
  {
    for n := 0 to |st.avail|
      invariant TryWholeNode(site, st, g, wants, 0) == TryWholeNode(site, st, g, wants, n)
    {
      var node := st.avail[n];
      var sum := SumWeights(node.res);
      if (if node.name in site.whenFree then site.whenFree[node.name] else 0) == sum {
        var found := MatchWanted(wants, node.res);
        if found { return Done(Accept(st, g, n, AsRequests(node.res), [])); }
      }
    }
    o := Raised(UserError);
  }

  /** Step 4: place the lists without a host, and the whole nodes. */
  method PlaceEverythingElse(site: Site, st0: PlanState, todo: seq<nat>, uid: nat) returns (o: Outcome<PlanState>)
    requires Shaped(st0) && InRange(todo, |st0.groups|)
    ensures o == PlaceAnywhere(site, st0, todo, uid)
  {
    var st := st0;
    for n := 0 to |todo|
      invariant Shaped(st) && |st.groups| == |st0.groups|
      invariant PlaceAnywhere(site, st0, todo, uid) == PlaceAnywhere(site, st, todo[n..], uid)
    {
      assert todo[n..][0] == todo[n] && todo[n..][1..] == todo[n + 1..];
      var g := todo[n];
      st := st.(avail := SortAvail(site, st.avail));
      var one;
      if st.groups[g].Node? {
        one := TryNodesWhole(site, st, g, st.groups[g].wants);
      } else {
        one := TryNodesAnywhere(st, g, uid);
      }
      match one {
        case Raised(e) => return one;
        case Done(st') => st := st';
      }
    }
    o := Done(st);
  }

  // --------------------------------------------------------------- the plan

  lemma ValidIsKeyed(t: Table, site: Site, groups: seq<Group>)
    requires Validate(t, site, groups).None?
    ensures FixedKeyed(PasteAll(groups))
  {
    var pasted := PasteAll(groups);
    ValidIsPasted(t, site, groups);
    forall g <- pasted, q <- GroupReqs(g) | DOF(q) == 0
      ensures Keyed(q)
    {
      var i :| 0 <= i < |pasted| && pasted[i] == g;
      assert Pasted(pasted[i]);
    }
  }

  /** Plan a request on copies of the table's resources. */
  method MakePlan(t: Table, site: Site, groups: seq<Group>, uid: nat) returns (o: Outcome<seq<seq<Req>>>)
    requires forall k :: k in t <==> k in site.order
    ensures o == Plan(t, site, groups, uid)
  {
    var hosted := PasteHostNames(groups);
    if hosted.Raised? { return Raised(hosted.error); }
    var pasted := hosted.value;
    var complaint := ValidateFixed(t, site, FixedAll(pasted));
    if complaint.Some? { return Raised(complaint.value); }
    ValidIsKeyed(t, site, groups);
    var dof0, dof1, dof2, dof3 := ByDOF(pasted);
    var byDOF := [dof0, dof1, dof2, dof3];
    var placed := StartPlan(t, site, pasted, byDOF, uid);
    if placed.Raised? { return Raised(placed.error); }
    WithDOFBounds(pasted, 2, 0);
    WithDOFBounds(pasted, 3, 0);
    placed := PlaceIndexedLists(site, pasted, placed.value, byDOF, uid);
    if placed.Raised? { return Raised(placed.error); }
    placed := PlaceHostedLists(placed.value, dof2, uid);
    if placed.Raised? { return Raised(placed.error); }
    var left := DropEmptyNodes(placed.value.avail);
    placed := PlaceEverythingElse(site, placed.value.(avail := left), dof3, uid);
    if placed.Raised? { return Raised(placed.error); }
    o := Done(Chosen(placed.value.chosen));
  }
}
