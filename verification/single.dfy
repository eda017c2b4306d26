/** Requests for one thing: they are planned exactly if something can serve them, whatever
    is fixed about them. */
module SingleRequests {
  import opened Resources
  import opened Ledger
  import opened Matchers
  import opened MatchingSteps
  import opened Planner
  import opened PlanCommits
  import opened PlanTheorem
  import opened PlanSound
  import opened Waiting
  import opened Suits
  import opened Placing
  import opened Checks

  /** Some resource on a usable node suits the request and has room for it. */
  ghost predicate Available(t: Table, site: Site, q: Req) {
    exists k <- t :: Usable(site, k.host) && SuitsReq(t[k].attrs, q) && HasRoom(t[k], q)
  }

  /** The order lists every resource, and sharing is safe. */
  ghost predicate Complete(t: Table, site: Site) {
    SafeTable(t) && NoDuplicates(site.order) && forall k <- t :: k in site.order
  }

  function Alone(q: Req): seq<Group> { [Reqs([q])] }

  lemma AloneIsPasted(q: Req)
    ensures PasteAll(Alone(q)) == Alone(q) && WellHosted([q])
    ensures MaxDOF([q]) == DOF(q) && FreeOf([q]) == (if DOF(q) == 0 then [] else [q]) && FixedOf([q]) == (if DOF(q) == 0 then [q] else [])
  {
    assert [q][1..] == [];
    assert FirstHost([q]) == q.host;
    if q.host.Some? { assert OnHosts([q], q.host.value) == [q]; }
    assert Paste([q]) == [q];
  }

  lemma OneGroupTodo(g: Group, d: nat)
    ensures WithDOF([g], d, 0) == (if GroupDOF(g) == d then [0] else [])
    ensures FixedWithDOF([g], d) == if GroupDOF(g) == d then FixedOf(GroupReqs(g)) else []
    ensures FixedAll([g]) == FixedOf(GroupReqs(g))
  {
    assert [g][1..] == [];
    assert WithDOF([g], d, 1) == [];
    assert FixedWithDOF([], d) == [] && FixedAll([]) == [];
    assert FixedOf(GroupReqs(g)) + [] == FixedOf(GroupReqs(g));
  }

  lemma OneGroupFixed(g: Group)
    ensures FixedByDOF([g]) == FixedOf(GroupReqs(g))
  {
    var f := FixedOf(GroupReqs(g));
    OneGroupTodo(g, 0);
    OneGroupTodo(g, 1);
    OneGroupTodo(g, 2);
    OneGroupTodo(g, 3);
    MaxDOFIsMax(GroupReqs(g));
    OnlyOne(FixedWithDOF([g], 0), FixedWithDOF([g], 1), FixedWithDOF([g], 2), FixedWithDOF([g], 3), f);
  }

  lemma OnlyOne<T>(a: seq<T>, b: seq<T>, c: seq<T>, d: seq<T>, x: seq<T>)
    requires (a == x && b + c + d == []) || (b == x && a + c + d == []) || (c == x && a + b + d == []) || (d == x && a + b + c == [])
    ensures a + b + c + d == x
  {
    assert a == x || a == [];
  }

  // ------------------------------------------------------------ fixed ones

  lemma FixedAloneValid(t: Table, site: Site, q: Req)
    requires DOF(q) == 0
    ensures Validate(t, site, Alone(q)) == CheckFixed(t, site, q)
  {
    AloneIsPasted(q);
    OneGroupTodo(Reqs([q]), 0);
    assert Alone(q)[0] in Alone(q);
    assert CheckAllFixed(t, site, [q], 1) == None;
    assert NoClash([q]);
  }

  lemma NothingToPlace(site: Site, groups: seq<Group>, st: PlanState, uid: nat)
    requires Shaped(st) && |st.groups| == |groups|
    requires WithDOF(groups, 1, 0) == [] && WithDOF(groups, 2, 0) == [] && WithDOF(groups, 3, 0) == []
    ensures Place(site, groups, st, uid).Done?
  {
  }

  lemma FixedAlonePlanned(t: Table, site: Site, q: Req, uid: nat)
    requires Complete(t, site) && q.cls.Some? && DOF(q) == 0
    ensures Plan(t, site, Alone(q), uid).Done? <==> Available(t, site, q)
  {
    var g := Reqs([q]);
    FixedAloneValid(t, site, q);
    AloneIsPasted(q);
    OneGroupTodo(g, 0);
    OneGroupTodo(g, 1);
    OneGroupTodo(g, 2);
    OneGroupTodo(g, 3);
    FixedPassesExactly(t, site, q);
    OnlyItself(t, site, q);
    if CheckFixed(t, site, q).None? {
      FixedAloneFits(t, q);
      FixedTakenExactly(t, site, Alone(q), uid);
      NothingToPlace(site, Alone(q), Start(t, site, Alone(q), uid).value, uid);
    }
  }

  /** What suits a fixed request is the resource it names. */
  lemma OnlyItself(t: Table, site: Site, q: Req)
    requires SafeTable(t) && Keyed(q)
    ensures Available(t, site, q) <==>
              KeyOf(q) in t && Usable(site, KeyOf(q).host) && SuitsReq(t[KeyOf(q)].attrs, q) && HasRoom(t[KeyOf(q)], q)
  {
    if k :| k in t && Usable(site, k.host) && SuitsReq(t[k].attrs, q) && HasRoom(t[k], q) { assert t[k].Key() == k == KeyOf(q); }
  }

  lemma FixedAloneFits(t: Table, q: Req)
    requires SafeTable(t) && Keyed(q) && KeyOf(q) in t && CanAllocate(t[KeyOf(q)], q)
    ensures FixedFit(t, [q])
  {
    assert [q][1..] == [];
    var gs := GrantsOf([q]);
    assert GrantsOf([]) == [] && gs == [Grant(KeyOf(q), q)] + [];
    forall k <- t
      ensures Fits(t[k], On(gs, k))
    {
      assert gs[1..] == [] && On([], k) == [];
      assert On(gs, k) == if k == KeyOf(q) then [q] else [];
      ReplayIffFits(t[k], On(gs, k), 0);
      if k == KeyOf(q) { assert Replay(Grow(t[k], q, 0), [q][1..], 0).Some?; }
    }
  }

  // ------------------------------------------------------- the others

  /** Where planning starts when nothing is fixed: with all that is free on usable nodes. */
  ghost predicate Begins(t: Table, site: Site, groups: seq<Group>, st: PlanState) {
    && Shaped(st) && st.groups == groups && AllOnNode(st.avail)
    && forall r :: Has(st.avail, r) <==> exists k <- t :: Eligible(site, k) && IsFree(t[k]) && r == t[k]
  }

  lemma NothingFixedBegins(t: Table, site: Site, g: Group, uid: nat) returns (st: PlanState)
    requires Complete(t, site) && FixedOf(GroupReqs(g)) == []
    ensures Start(t, site, [g], uid) == Done(st) && Begins(t, site, [g], st)
    ensures st.avail == AvailOn(site.order, FreePool(t, site), Hosts(site.order, site))
  {
    var pool := FreePool(t, site);
    OneGroupFixed(g);
    assert GrantsOf([]) == [] && CommitAll(pool, [], uid) == Some(pool);
    st := Start(t, site, [g], uid).value;
    ListedExactly(site.order, site, pool);
    forall r
      ensures Has(st.avail, r) <==> exists k <- t :: Eligible(site, k) && IsFree(t[k]) && r == t[k]
    {
      if k :| k in t && Eligible(site, k) && IsFree(t[k]) && r == t[k] { assert k in site.order && k in pool; }
    }
  }

  /** Something listed can serve the request. */
  ghost predicate Served(avail: seq<NodeAvail>, q: Req) { exists a <- avail :: SomeServes(a.res, q) }

  lemma ServedByHas(avail: seq<NodeAvail>, q: Req)
    ensures Served(avail, q) <==> exists r :: Has(avail, r) && CanAllocate(r, q)
  {
    if a :| a in avail && SomeServes(a.res, q) {
      var r :| r in a.res && CanAllocate(r, q);
      assert Has(avail, r);
    }
    if r :| Has(avail, r) && CanAllocate(r, q) {
      var a :| a in avail && r in a.res;
      assert SomeServes(a.res, q);
    }
  }

  lemma ServedIsAvailable(t: Table, site: Site, groups: seq<Group>, st: PlanState, q: Req)
    requires SafeTable(t) && Begins(t, site, groups, st)
    ensures Served(st.avail, q) <==> Available(t, site, q)
  {
    ServedByHas(st.avail, q);
    if r :| Has(st.avail, r) && CanAllocate(r, q) {
      var k :| k in t && Eligible(site, k) && IsFree(t[k]) && r == t[k];
      AllocateMeans(t[k], q);
    }
    if k :| k in t && Usable(site, k.host) && SuitsReq(t[k].attrs, q) && HasRoom(t[k], q) {
      AllocateMeans(t[k], q);
      assert Eligible(site, k);
      assert Has(st.avail, t[k]);
    }
  }

  lemma ServedSame(a: seq<NodeAvail>, b: seq<NodeAvail>, q: Req)
    requires forall r :: Has(a, r) <==> Has(b, r)
    ensures Served(a, q) <==> Served(b, q)
  {
    ServedByHas(a, q);
    ServedByHas(b, q);
  }

  /** On a node, asking for it there is asking for it. */
  lemma MovedServes(a: NodeAvail, q: Req)
    requires OnNode(a) && q.host.None?
    ensures SomeServes(a.res, OnHost(q, a.name)) <==> SomeServes(a.res, q)
  {
    forall r <- a.res
      ensures CanAllocate(r, OnHost(q, a.name)) <==> CanAllocate(r, q)
    {
      assert r.Key().host == a.name;
      MatchMeans(r.attrs, q);
      MatchMeans(r.attrs, OnHost(q, a.name));
    }
  }

  lemma AnywhereAlone(st: PlanState, q: Req, uid: nat)
    requires Shaped(st) && st.groups == Alone(q) && AllOnNode(st.avail) && q.cls.Some? && DOF(q) == 3
    ensures TryAnywhere(st, 0, 0, uid).Done? <==> Served(st.avail, q)
  {
    AloneIsPasted(q);
    AnywhereExactly(st, 0, 0, uid);
    forall m | 0 <= m < |st.avail|
      ensures OnNodeOf([q], st.avail[m], uid).Matched? <==> SomeServes(st.avail[m].res, q)
    {
      var a := st.avail[m];
      assert a in st.avail;
      assert OnHosts([q], a.name) == [OnHost(q, a.name)];
      OneMatched(OnHost(q, a.name), a.res, uid);
      MovedServes(a, q);
    }
    if Served(st.avail, q) {
      var a :| a in st.avail && SomeServes(a.res, q);
      var m :| 0 <= m < |st.avail| && st.avail[m] == a;
    }
    if m :| 0 <= m < |st.avail| && OnNodeOf([q], st.avail[m], uid).Matched? { assert st.avail[m] in st.avail; }
  }

  lemma IndexedStep(st: PlanState, q: Req, n: nat, uid: nat)
    requires Shaped(st) && st.groups == Alone(q) && AllOnNode(st.avail) && q.cls.Some? && DOF(q) == 1 && n < |st.avail|
    ensures TryIndexed(Alone(q), st, 0, n, uid).Done? <==>
              SomeServes(st.avail[n].res, q) || TryIndexed(Alone(q), st, 0, n + 1, uid).Done?
  {
    var a := st.avail[n];
    assert a in st.avail;
    AloneIsPasted(q);
    NobodyWaits(q, a.name);
    assert OnHosts([q], a.name) == [OnHost(q, a.name)];
    OneMatched(OnHost(q, a.name), a.res, uid);
    MovedServes(a, q);
  }

  /** Some node from n on can serve the request. */
  ghost predicate ServesFrom(avail: seq<NodeAvail>, q: Req, n: nat) { exists m | n <= m < |avail| :: SomeServes(avail[m].res, q) }

  lemma ServesFromNext(avail: seq<NodeAvail>, q: Req, n: nat)
    requires n < |avail|
    ensures ServesFrom(avail, q, n) <==> SomeServes(avail[n].res, q) || ServesFrom(avail, q, n + 1)
  {
  }

  lemma IndexedEnd(st: PlanState, q: Req, n: nat, uid: nat)
    requires Shaped(st) && st.groups == Alone(q) && n == |st.avail|
    ensures TryIndexed(Alone(q), st, 0, n, uid) == Raised(UserError)
  {
  }

  lemma {:induction false} IndexedAlone(st: PlanState, q: Req, n: nat, uid: nat)
    requires Shaped(st) && st.groups == Alone(q) && AllOnNode(st.avail) && q.cls.Some? && DOF(q) == 1 && n <= |st.avail|
    ensures TryIndexed(Alone(q), st, 0, n, uid).Done? <==> ServesFrom(st.avail, q, n)
    decreases |st.avail| - n
  {
    if n == |st.avail| {
      IndexedEnd(st, q, n, uid);
    } else {
      IndexedStep(st, q, n, uid);
      ServesFromNext(st.avail, q, n);
      IndexedAlone(st, q, n + 1, uid);
    }
  }

  lemma NobodyWaits(q: Req, host: string)
    requires DOF(q) != 2
    ensures RefsFor(Alone(q), 0, host) == []
  {
    AloneIsPasted(q);
    assert RefsFor(Alone(q), 1, host) == [] && [] + RefsFor(Alone(q), 1, host) == [];
  }

  lemma HostedAlone(st: PlanState, q: Req, uid: nat)
    requires Shaped(st) && st.groups == Alone(q) && AllOnNode(st.avail) && NamesDistinct(st.avail) && q.cls.Some? && DOF(q) == 2
    ensures PlaceOnHost(st, 0, uid).Done? <==> Served(st.avail, q)
  {
    AloneIsPasted(q);
    OnHostExactly(st, 0, uid);
    var name := q.host.value;
    forall n: nat | n < |st.avail|
      ensures MatchPartly([q], SortRes(st.avail[n].res), uid).Matched? <==> SomeServes(st.avail[n].res, q)
      ensures SomeServes(st.avail[n].res, q) ==> IsFirst(st.avail, n, name)
    {
      var a := st.avail[n];
      assert a in st.avail;
      SortResMembers(a.res);
      OneMatched(q, SortRes(a.res), uid);
      assert SomeServes(SortRes(a.res), q) <==> SomeServes(a.res, q);
      if r :| r in a.res && CanAllocate(r, q) { assert r.Key().host == a.name == name; }
    }
    if Served(st.avail, q) {
      var a :| a in st.avail && SomeServes(a.res, q);
      var n: nat :| n < |st.avail| && st.avail[n] == a;
      assert IsFirst(st.avail, n, name);
      assert HostServes(st.avail, name, [q], uid);
    }
    if HostServes(st.avail, name, [q], uid) {
      var n: nat :| IsFirst(st.avail, n, name) && MatchPartly([q], SortRes(st.avail[n].res), uid).Matched?;
      assert st.avail[n] in st.avail;
    }
  }

  // ----------------------------------------------------------- the result

  lemma PlaceOne(site: Site, groups: seq<Group>, st: PlanState, uid: nat)
    requires Shaped(st) && |st.groups| == |groups| == 1
    ensures WithDOF(groups, 1, 0) == [0] && WithDOF(groups, 2, 0) == [] && WithDOF(groups, 3, 0) == [] ==>
              (Place(site, groups, st, uid).Done? <==> TryIndexed(groups, st.(avail := SortAvail(site, st.avail)), 0, 0, uid).Done?)
    ensures WithDOF(groups, 1, 0) == [] && WithDOF(groups, 2, 0) == [0] && WithDOF(groups, 3, 0) == [] ==>
              (Place(site, groups, st, uid).Done? <==> PlaceOnHost(st, 0, uid).Done?)
    ensures WithDOF(groups, 1, 0) == [] && WithDOF(groups, 2, 0) == [] && WithDOF(groups, 3, 0) == [0] && st.groups[0].Reqs? ==>
              (Place(site, groups, st, uid).Done? <==> TryAnywhere(Sorted(site, Dropped(st)), 0, 0, uid).Done?)
  {
    assert [0][1..] == [];
  }

  function Dropped(st: PlanState): PlanState { st.(avail := DropEmpty(st.avail)) }

  function Sorted(site: Site, st: PlanState): PlanState { st.(avail := SortAvail(site, st.avail)) }

  lemma AloneTodo(q: Req)
    ensures GroupDOF(Reqs([q])) == DOF(q)
    ensures forall d: nat | 1 <= d <= 3 :: WithDOF(Alone(q), d, 0) == if DOF(q) == d then [0] else []
  {
    AloneIsPasted(q);
    OneGroupTodo(Reqs([q]), 1);
    OneGroupTodo(Reqs([q]), 2);
    OneGroupTodo(Reqs([q]), 3);
  }

  lemma AlonePlaced(site: Site, q: Req, st: PlanState, uid: nat)
    requires Shaped(st) && st.groups == Alone(q) && AllOnNode(st.avail) && NamesDistinct(st.avail) && q.cls.Some? && DOF(q) != 0
    ensures Place(site, Alone(q), st, uid).Done? <==> Served(st.avail, q)
  {
    AloneTodo(q);
    PlaceOne(site, Alone(q), st, uid);
    if DOF(q) == 1 {
      SortedHas(site, st.avail);
      IndexedAlone(Sorted(site, st), q, 0, uid);
      ServedSame(Sorted(site, st).avail, st.avail, q);
      ServedAt(Sorted(site, st).avail, q);
    } else if DOF(q) == 2 {
      HostedAlone(st, q, uid);
    } else {
      DroppedHas(st.avail);
      SortedHas(site, DropEmpty(st.avail));
      AnywhereAlone(Sorted(site, Dropped(st)), q, uid);
      ServedSame(Sorted(site, Dropped(st)).avail, st.avail, q);
    }
  }

  lemma ServedAt(avail: seq<NodeAvail>, q: Req)
    ensures Served(avail, q) <==> ServesFrom(avail, q, 0)
  {
    if Served(avail, q) {
      var a :| a in avail && SomeServes(a.res, q);
      var m :| 0 <= m < |avail| && avail[m] == a;
    }
    if m :| 0 <= m < |avail| && SomeServes(avail[m].res, q) { assert avail[m] in avail; }
  }

  lemma FreeAloneValid(t: Table, site: Site, q: Req)
    requires DOF(q) != 0
    ensures Validate(t, site, Alone(q)) == None
  {
    AloneIsPasted(q);
    OneGroupTodo(Reqs([q]), 0);
  }

  /** A request for one resource of a known class is planned exactly if a resource on some
      usable node suits it and has room for it, whether index, host, both or neither are
      given. */
  lemma SinglePlannedExactly(t: Table, site: Site, q: Req, uid: nat)
    requires Complete(t, site) && q.cls.Some?
    ensures Plan(t, site, Alone(q), uid).Done? <==> Available(t, site, q)
  {
    if DOF(q) == 0 {
      FixedAlonePlanned(t, site, q, uid);
    } else {
      AloneIsPasted(q);
      FreeAloneValid(t, site, q);
      var st := NothingFixedBegins(t, site, Reqs([q]), uid);
      HostsDistinct(site.order, site);
      AlonePlaced(site, q, st, uid);
      ServedIsAvailable(t, site, Alone(q), st, q);
    }
  }
}
