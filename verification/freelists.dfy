/** Requests for one list that may be placed anywhere: it is planned exactly if the free
    resources of some usable node can serve it. */
module FreeLists {
  import opened Resources
  import opened Ledger
  import opened Matchers
  import opened MatchingSteps
  import opened Planner
  import opened PlanCommits
  import opened PlanTheorem
  import opened PlanSound
  import opened Waiting
  import opened Sorting
  import opened Placing
  import opened Checks
  import opened SingleRequests
  import Capacity

  /** A list that names no host, with a request that names no index either. */
  ghost predicate Roaming(reqs: seq<Req>) {
    (forall q <- reqs :: q.cls.Some? && q.host.None?) && exists q <- reqs :: q.idx.None?
  }

  lemma RoamingIs(reqs: seq<Req>)
    requires Roaming(reqs)
    ensures PasteAll([Reqs(reqs)]) == [Reqs(reqs)] && WellHosted(reqs) && MaxDOF(reqs) == 3
    ensures FreeOf(reqs) == reqs && FixedOf(reqs) == [] && reqs != []
  {
    FirstHostIn(reqs);
    MaxDOFIsMax(reqs);
    AllOpen(reqs);
    assert Paste(reqs) == reqs;
  }

  lemma {:induction false} AllOpen(reqs: seq<Req>)
    requires forall q <- reqs :: DOF(q) != 0
    ensures FreeOf(reqs) == reqs && FixedOf(reqs) == []
  {
    if reqs != [] {
      assert reqs[0] in reqs;
      AllOpen(reqs[1..]);
      assert reqs == [reqs[0]] + reqs[1..];
    }
  }

  lemma EmptyServesNone(reqs: seq<Req>, name: string, uid: nat)
    requires Roaming(reqs)
    ensures !MatchPartly(OnHosts(reqs, name), [], uid).Matched?
  {
    var moved := OnHosts(reqs, name);
    RoamingIs(reqs);
    MatchedIsServed(moved, [], uid);
    var q :| q in reqs && q.idx.None?;
    var i :| 0 <= i < |reqs| && reqs[i] == q;
    assert moved[i] in moved && DOF(moved[i]) == 2;
  }

  /** Nothing open is matched without resources. */
  lemma {:induction false} MatchedIsServed(reqs: seq<Req>, avail: seq<Res>, uid: nat)
    requires avail == []
    ensures MatchPartly(reqs, avail, uid).Matched? ==> forall q <- reqs :: DOF(q) == 0
  {
    if MatchPartly(reqs, avail, uid).Matched? {
      NothingLeft(FixedOf(reqs), avail, uid);
      NoneAssigned(reqs, ByClass([]), uid);
    }
  }

  lemma NothingLeft(reqs: seq<Req>, avail: seq<Res>, uid: nat)
    requires avail == [] && MatchFixed(reqs, avail, uid).Some?
    ensures MatchFixed(reqs, avail, uid).value == []
  {
  }

  lemma {:induction false} NoneAssigned(reqs: seq<Req>, avail: seq<Res>, uid: nat)
    requires avail == [] && AssignFree(reqs, avail, uid).Matched?
    ensures forall q <- reqs :: DOF(q) == 0
    decreases |reqs|
  {
    if reqs != [] {
      NoneAssigned(reqs[1..], avail, uid);
      assert reqs == [reqs[0]] + reqs[1..];
    }
  }

  // -------------------------------------------------------- some node serves

  /** The node's resources, lightest first, can serve the list. */
  ghost predicate NodeServes(reqs: seq<Req>, a: NodeAvail, uid: nat) {
    MatchPartly(OnHosts(reqs, a.name), SortRes(a.res), uid).Matched?
  }

  /** The node's resources as they are listed can. */
  ghost predicate ServesAsListed(reqs: seq<Req>, a: NodeAvail, uid: nat) { MatchPartly(OnHosts(reqs, a.name), a.res, uid).Matched? }

  lemma SortedMembers(site: Site, avail: seq<NodeAvail>)
    ensures forall a <- avail :: a.(res := SortRes(a.res)) in SortAvail(site, avail)
    ensures forall b <- SortAvail(site, avail) :: exists a <- avail :: b == a.(res := SortRes(a.res))
  {
    SortAvailSorts(site, avail);
    var sorted, each := SortAvail(site, avail), EachSorted(avail);
    assert forall x :: x in sorted <==> x in multiset(sorted);
    assert forall x :: x in each <==> x in multiset(each);
    forall a <- avail
      ensures a.(res := SortRes(a.res)) in sorted
    {
      var i :| 0 <= i < |avail| && avail[i] == a;
      assert each[i] in each;
    }
    forall b <- sorted
      ensures exists a <- avail :: b == a.(res := SortRes(a.res))
    {
      var i :| 0 <= i < |each| && each[i] == b;
      assert avail[i] in avail;
    }
  }

  lemma {:induction false} DroppedMembers(avail: seq<NodeAvail>)
    ensures forall a :: a in DropEmpty(avail) <==> a in avail && a.res != []
  {
    if avail != [] {
      DroppedMembers(avail[1..]);
      assert avail == [avail[0]] + avail[1..];
    }
  }

  lemma SomeNodeServes(site: Site, avail: seq<NodeAvail>, reqs: seq<Req>, uid: nat)
    requires Roaming(reqs)
    ensures (exists b <- SortAvail(site, DropEmpty(avail)) :: ServesAsListed(reqs, b, uid)) <==> exists a <- avail :: NodeServes(reqs, a, uid)
  {
    SortedMembers(site, DropEmpty(avail));
    DroppedMembers(avail);
    if b :| b in SortAvail(site, DropEmpty(avail)) && ServesAsListed(reqs, b, uid) {
      var a :| a in DropEmpty(avail) && b == a.(res := SortRes(a.res));
      assert NodeServes(reqs, a, uid);
    }
    if a :| a in avail && NodeServes(reqs, a, uid) {
      if a.res == [] { EmptyServesNone(reqs, a.name, uid); }
      var b := a.(res := SortRes(a.res));
      assert ServesAsListed(reqs, b, uid);
    }
  }

  lemma RoamingPlaced(st: PlanState, reqs: seq<Req>, uid: nat)
    requires Shaped(st) && st.groups == [Reqs(reqs)] && Roaming(reqs)
    ensures TryAnywhere(st, 0, 0, uid).Done? <==> exists b <- st.avail :: ServesAsListed(reqs, b, uid)
    ensures TryAnywhere(st, 0, 0, uid).Raised? ==> TryAnywhere(st, 0, 0, uid).error == UserError
  {
    RoamingIs(reqs);
    AnywhereExactly(st, 0, 0, uid);
    if m :| 0 <= m < |st.avail| && OnNodeOf(reqs, st.avail[m], uid).Matched? { assert ServesAsListed(reqs, st.avail[m], uid) && st.avail[m] in st.avail; }
    if b :| b in st.avail && ServesAsListed(reqs, b, uid) {
      var m :| 0 <= m < |st.avail| && st.avail[m] == b;
      assert OnNodeOf(reqs, st.avail[m], uid).Matched?;
    }
  }

  /** What is free on one node. */
  function FreeAt(t: Table, site: Site, host: string): seq<Res> { FreeOn(site.order, FreePool(t, site), host) }

  /** The free resources of some usable node can serve the list there. */
  ghost predicate SomeHostServes(t: Table, site: Site, reqs: seq<Req>, uid: nat) {
    exists h | h in Hosts(site.order, site) :: MatchPartly(OnHosts(reqs, h), SortRes(FreeAt(t, site, h)), uid).Matched?
  }

  lemma RoamingValid(t: Table, site: Site, reqs: seq<Req>)
    requires Roaming(reqs)
    ensures Validate(t, site, [Reqs(reqs)]) == None && forall d: nat | 1 <= d <= 3 :: WithDOF([Reqs(reqs)], d, 0) == if d == 3 then [0] else []
  {
    RoamingIs(reqs);
    OneGroupTodo(Reqs(reqs), 1);
    OneGroupTodo(Reqs(reqs), 2);
    OneGroupTodo(Reqs(reqs), 3);
  }

  /** A list that may be placed anywhere is planned exactly if the free resources of some
      usable node can serve it; otherwise it is refused as the user's error. */
  lemma ListPlannedExactly(t: Table, site: Site, reqs: seq<Req>, uid: nat)
    requires Complete(t, site) && Roaming(reqs)
    ensures Plan(t, site, [Reqs(reqs)], uid).Done? <==> SomeHostServes(t, site, reqs, uid)
    ensures Plan(t, site, [Reqs(reqs)], uid).Raised? ==> Plan(t, site, [Reqs(reqs)], uid).error == UserError
  {
    RoamingIs(reqs);
    RoamingValid(t, site, reqs);
    var st := NothingFixedBegins(t, site, Reqs(reqs), uid);
    PlaceRoaming(site, [Reqs(reqs)], st, uid);
    var avail := SortAvail(site, DropEmpty(st.avail));
    RoamingPlaced(st.(avail := avail), reqs, uid);
    SomeNodeServes(site, st.avail, reqs, uid);
    ListedServes(t, site, st.avail, reqs, uid);
  }

  lemma PlaceRoaming(site: Site, groups: seq<Group>, st: PlanState, uid: nat)
    requires Shaped(st) && |st.groups| == |groups| == 1 && st.groups[0].Reqs?
    requires WithDOF(groups, 1, 0) == [] && WithDOF(groups, 2, 0) == [] && WithDOF(groups, 3, 0) == [0]
    ensures var o := TryAnywhere(st.(avail := SortAvail(site, DropEmpty(st.avail))), 0, 0, uid);
            && (Place(site, groups, st, uid).Done? <==> o.Done?)
            && (Place(site, groups, st, uid).Raised? ==> o.Raised? && Place(site, groups, st, uid).error == o.error)
  {
    assert [0][1..] == [];
  }

  lemma ListedServes(t: Table, site: Site, avail: seq<NodeAvail>, reqs: seq<Req>, uid: nat)
    requires avail == AvailOn(site.order, FreePool(t, site), Hosts(site.order, site))
    ensures (exists a <- avail :: NodeServes(reqs, a, uid)) <==> SomeHostServes(t, site, reqs, uid)
  {
    var hosts := Hosts(site.order, site);
    if a :| a in avail && NodeServes(reqs, a, uid) {
      var i :| 0 <= i < |avail| && avail[i] == a;
      assert hosts[i] in hosts;
    }
    if h :| h in hosts && MatchPartly(OnHosts(reqs, h), SortRes(FreeAt(t, site, h)), uid).Matched? {
      var i :| 0 <= i < |hosts| && hosts[i] == h;
      assert NodeServes(reqs, avail[i], uid) && avail[i] in avail;
    }
  }

  // ------------------------------------------------------ equal requests

  lemma {:induction false} InsertedCapacity(r: Res, rs: seq<Res>, q: Req)
    ensures Capacity.Capacity(InsertRes(r, rs), q) == Capacity.Slots(r, q) + Capacity.Capacity(rs, q)
  {
    if rs == [] || Weight(r) <= Weight(rs[0]) {
      assert ([r] + rs)[1..] == rs;
    } else {
      var rest := InsertRes(r, rs[1..]);
      assert ([rs[0]] + rest)[1..] == rest;
      InsertedCapacity(r, rs[1..], q);
    }
  }

  lemma {:induction false} SortedCapacity(rs: seq<Res>, q: Req)
    ensures Capacity.Capacity(SortRes(rs), q) == Capacity.Capacity(rs, q)
  {
    if rs != [] {
      SortedCapacity(rs[1..], q);
      InsertedCapacity(rs[0], SortRes(rs[1..]), q);
    }
  }

  /** n like resources on one node, wherever that is, are planned exactly if some usable
      node has n slots left for them. */
  lemma SamePlannedExactly(t: Table, site: Site, q: Req, n: nat, uid: nat)
    requires Complete(t, site) && n > 0 && q.cls.Some? && q.host.None? && q.idx.None?
    ensures Plan(t, site, [Reqs(Capacity.Repeat(q, n))], uid).Done? <==>
              exists h | h in Hosts(site.order, site) :: n <= Capacity.Capacity(FreeAt(t, site, h), OnHost(q, h))
  {
    var reqs := Capacity.Repeat(q, n);
    assert reqs[0] in reqs;
    ListPlannedExactly(t, site, reqs, uid);
    forall h | h in Hosts(site.order, site)
      ensures MatchPartly(OnHosts(reqs, h), SortRes(FreeAt(t, site, h)), uid).Matched? <==> n <= Capacity.Capacity(FreeAt(t, site, h), OnHost(q, h))
    {
      assert OnHosts(reqs, h) == Capacity.Repeat(OnHost(q, h), n);
      FreeAtIsSafe(t, site, h);
      SortResMembers(FreeAt(t, site, h));
      Capacity.FirstFitCompleteForSame(OnHost(q, h), n, SortRes(FreeAt(t, site, h)), uid);
      SortedCapacity(FreeAt(t, site, h), OnHost(q, h));
    }
  }

  lemma FreeAtIsSafe(t: Table, site: Site, h: string)
    requires SafeTable(t)
    ensures Capacity.AllSafe(FreeAt(t, site, h))
  {
    FreeOnMembers(site.order, FreePool(t, site), h);
  }
}
