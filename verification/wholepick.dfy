/** What a plan picks for a whole node. With positive weights that were summed up when
    nothing was in use, it is all of one node, and all of it is free: this holds of every
    plan that succeeds, whatever else it places. */
module WholePick {
  import opened Resources
  import opened Ledger
  import opened Matchers
  import opened MatchingSteps
  import opened Planner
  import opened PlanCommits
  import opened PlanTheorem
  import opened PlanSound
  import opened WholeNode
  import opened Weights

  // --------------------------------------------- what planning works with

  /** A copy of a resource of the table, with perhaps more owners. */
  ghost predicate Stems(r: Res, t: Table) {
    && Safe(r) && r.Key() in t
    && var r0 := t[r.Key()];
       r.attrs == r0.attrs && |r0.owners| <= |r.owners| && (r0.shared ==> r.shared) && (r == r0 || IsFree(r0))
  }

  /** Free copies of resources of one node. */
  ghost predicate Stock(rs: seq<Res>, name: string, t: Table) {
    Distinct(rs) && forall r <- rs :: Stems(r, t) && IsFree(r) && r.Key().host == name
  }

  ghost predicate AllStock(avail: seq<NodeAvail>, t: Table) { forall a <- avail :: Stock(a.res, a.name, t) }

  lemma TakeStaysStock(rs: seq<Res>, i: nat, q: Req, uid: nat, name: string, t: Table)
    requires Stock(rs, name, t) && i < |rs| && CanAllocate(rs[i], q)
    ensures Stock(TakeAt(rs, i, q, uid), name, t)
  {
    assert rs[i] in rs;
    TakeStaysDistinct(rs, i, q, uid);
    TakeMembers(rs, i, q, uid);
    GrowSafe(rs[i], q, uid);
  }

  lemma {:induction false} FixedLeavesStock(reqs: seq<Req>, rs: seq<Res>, uid: nat, name: string, t: Table)
    requires Stock(rs, name, t) && MatchFixed(reqs, rs, uid).Some?
    ensures Stock(MatchFixed(reqs, rs, uid).value, name, t)
    decreases |reqs|
  {
    if reqs != [] {
      var i := FirstFit(rs, reqs[0]);
      TakeStaysStock(rs, i, reqs[0], uid, name, t);
      FixedLeavesStock(reqs[1..], TakeAt(rs, i, reqs[0], uid), uid, name, t);
    }
  }

  lemma {:induction false} AssignLeavesStock(reqs: seq<Req>, rs: seq<Res>, uid: nat, name: string, t: Table)
    requires Stock(rs, name, t) && AssignFree(reqs, rs, uid).Matched?
    ensures Stock(AssignFree(reqs, rs, uid).rest, name, t)
    decreases |reqs|
  {
    if reqs != [] && DOF(reqs[0]) == 0 {
      AssignLeavesStock(reqs[1..], rs, uid, name, t);
    } else if reqs != [] {
      var i := FirstFit(rs, reqs[0]);
      var q := Resolve(reqs[0], rs[i].Key());
      ResolvedServes(rs[i], reqs[0]);
      TakeStaysStock(rs, i, q, uid, name, t);
      AssignLeavesStock(reqs[1..], TakeAt(rs, i, q, uid), uid, name, t);
    }
  }

  lemma ResolvedServes(r: Res, q: Req)
    requires CanAllocate(r, q)
    ensures CanAllocate(r, Resolve(q, r.Key()))
  {
  }

  lemma MatchLeavesStock(reqs: seq<Req>, rs: seq<Res>, uid: nat, name: string, t: Table)
    requires Stock(rs, name, t) && MatchPartly(reqs, rs, uid).Matched?
    ensures Stock(MatchPartly(reqs, rs, uid).rest, name, t)
  {
    var left := MatchFixed(FixedOf(reqs), rs, uid).value;
    FixedLeavesStock(FixedOf(reqs), rs, uid, name, t);
    ByClassMembers(left);
    AssignLeavesStock(reqs, ByClass(left), uid, name, t);
  }

  lemma SortedStock(rs: seq<Res>, name: string, t: Table)
    requires Stock(rs, name, t)
    ensures Stock(SortRes(rs), name, t)
  {
    SortResMembers(rs);
  }

  lemma {:induction false} SortedAllStock(site: Site, avail: seq<NodeAvail>, t: Table)
    requires AllStock(avail, t)
    ensures AllStock(SortAvail(site, avail), t)
  {
    if avail != [] {
      var a, rest := avail[0], avail[1..];
      assert a in avail && forall b <- rest :: b in avail;
      SortedAllStock(site, rest, t);
      SortedStock(a.res, a.name, t);
      InsertNodeMembers(site, a.(res := SortRes(a.res)), SortAvail(site, rest));
    }
  }

  // ------------------------------------------------------------ the steps

  /** A plan under way: it works on copies of the table, and the groups that are whole
      nodes are as they were asked for. */
  ghost predicate Working(groups: seq<Group>, st: PlanState, t: Table) {
    && Shaped(st) && |st.groups| == |groups| && AllStock(st.avail, t)
    && forall i | 0 <= i < |groups| && groups[i].Node? :: st.groups[i] == groups[i]
  }

  lemma AcceptWorks(groups: seq<Group>, st: PlanState, g: nat, n: nat, x: seq<Req>, rest: seq<Res>, t: Table)
    requires Working(groups, st, t) && g < |st.groups| && n < |st.avail| && Stock(rest, st.avail[n].name, t)
    ensures Working(groups, Accept(st, g, n, x, rest), t)
  {
    var st' := Accept(st, g, n, x, rest);
    forall a <- st'.avail
      ensures Stock(a.res, a.name, t)
    {
      assert a == st.avail[n].(res := rest) || a in st.avail;
    }
  }

  lemma {:induction false} WritesLeaveNodes(live: seq<Group>, refs: seq<Ref>, qs: seq<Req>)
    ensures forall i | 0 <= i < |live| && live[i].Node? :: WriteRefs(live, refs, qs)[i] == live[i]
    decreases |refs|
  {
    if refs != [] && qs != [] { WritesLeaveNodes(WriteRef(live, refs[0], qs[0]), refs[1..], qs[1..]); }
  }

  lemma {:induction false} TryIndexedWorks(groups: seq<Group>, st: PlanState, g: nat, n: nat, t: Table, uid: nat)
    requires Working(groups, st, t) && g < |st.groups| && n <= |st.avail| && TryIndexed(groups, st, g, n, uid).Done?
    ensures Working(groups, TryIndexed(groups, st, g, n, uid).value, t)
    decreases |st.avail| - n
  {
    var node, reqs := st.avail[n], GroupReqs(st.groups[g]);
    assert node in st.avail;
    var onNode := OnHosts(FreeOf(reqs), node.name);
    match MatchFixed(onNode, node.res, uid) {
      case None => TryIndexedWorks(groups, st, g, n + 1, t, uid);
      case Some(rest) =>
        FixedLeavesStock(onNode, node.res, uid, node.name, t);
        AcceptWorks(groups, st, g, n, Fill(reqs, onNode), rest, t);
        var refs := RefsFor(groups, 0, node.name);
        if refs != [] {
          var look := MatchPartly(ReadRefs(st.groups, refs), rest, uid);
          WritesLeaveNodes(st.groups, refs, look.reqs);
          var st' := st.(groups := WriteRefs(st.groups, refs, look.reqs));
          assert Working(groups, st', t);
          if look.Matched? {
            AcceptWorks(groups, st', g, n, Fill(reqs, onNode), rest, t);
          } else {
            TryIndexedWorks(groups, st', g, n + 1, t, uid);
          }
        }
    }
  }

  lemma {:induction false} PlaceIndexedWorks(site: Site, groups: seq<Group>, st: PlanState, todo: seq<nat>, t: Table, uid: nat)
    requires Working(groups, st, t) && InRange(todo, |st.groups|) && PlaceIndexed(site, groups, st, todo, uid).Done?
    ensures Working(groups, PlaceIndexed(site, groups, st, todo, uid).value, t)
    decreases |todo|
  {
    if todo != [] {
      var sorted := st.(avail := SortAvail(site, st.avail));
      SortedAllStock(site, st.avail, t);
      TryIndexedWorks(groups, sorted, todo[0], 0, t, uid);
      PlaceIndexedWorks(site, groups, TryIndexed(groups, sorted, todo[0], 0, uid).value, todo[1..], t, uid);
    }
  }

  lemma PlaceOnHostWorks(groups: seq<Group>, st: PlanState, g: nat, t: Table, uid: nat)
    requires Working(groups, st, t) && g < |st.groups| && groups[g].Reqs? && PlaceOnHost(st, g, uid).Done?
    ensures Working(groups, PlaceOnHost(st, g, uid).value, t)
  {
    var reqs := GroupReqs(st.groups[g]);
    var free := FreeOf(reqs);
    var n := NodeIndex(st.avail, free[0].host.value);
    var m := MatchPartly(free, SortRes(st.avail[n].res), uid);
    assert st.avail[n] in st.avail;
    SortedStock(st.avail[n].res, st.avail[n].name, t);
    MatchLeavesStock(free, SortRes(st.avail[n].res), uid, st.avail[n].name, t);
    var done := Fill(reqs, m.reqs);
    AcceptWorks(groups, st.(groups := st.groups[g := Reqs(done)]), g, n, done, m.rest, t);
  }

  lemma {:induction false} PlaceHostedWorks(groups: seq<Group>, st: PlanState, todo: seq<nat>, t: Table, uid: nat)
    requires Working(groups, st, t) && InRange(todo, |st.groups|) && PlaceHosted(st, todo, uid).Done?
    requires forall i | 0 <= i < |todo| :: groups[todo[i]].Reqs?
    ensures Working(groups, PlaceHosted(st, todo, uid).value, t)
    decreases |todo|
  {
    if todo != [] {
      PlaceOnHostWorks(groups, st, todo[0], t, uid);
      PlaceHostedWorks(groups, PlaceOnHost(st, todo[0], uid).value, todo[1..], t, uid);
    }
  }

  lemma {:induction false} TryAnywhereWorks(groups: seq<Group>, st: PlanState, g: nat, n: nat, t: Table, uid: nat)
    requires Working(groups, st, t) && g < |st.groups| && n <= |st.avail| && TryAnywhere(st, g, n, uid).Done?
    ensures Working(groups, TryAnywhere(st, g, n, uid).value, t)
    decreases |st.avail| - n
  {
    var node, reqs := st.avail[n], GroupReqs(st.groups[g]);
    var moved := OnHosts(FreeOf(reqs), node.name);
    var m := MatchPartly(moved, node.res, uid);
    assert node in st.avail;
    if m.Matched? {
      MatchLeavesStock(moved, node.res, uid, node.name, t);
      AcceptWorks(groups, st, g, n, Fill(reqs, m.reqs), m.rest, t);
    } else {
      TryAnywhereWorks(groups, st, g, n + 1, t, uid);
    }
  }

  // ------------------------------------------------------- what is picked

  /** x asks for all that is left of a node that passes as whole and has what is wanted. */
  ghost predicate PickedFrom(t: Table, site: Site, wants: seq<Req>, x: seq<Req>, a: NodeAvail) {
    Stock(a.res, a.name, t) && IsWhole(site, a) && HasWanted(wants, a.res) && x == AsRequests(a.res)
  }

  lemma TryWholePicks(site: Site, groups: seq<Group>, st: PlanState, g: nat, wants: seq<Req>, t: Table, uid: nat)
    returns (a: NodeAvail)
    requires Working(groups, st, t) && g < |st.groups| && TryWholeNode(site, st, g, wants, 0).Done?
    ensures var st' := TryWholeNode(site, st, g, wants, 0).value;
            Working(groups, st', t) && st'.chosen[g].Some? && PickedFrom(t, site, wants, st'.chosen[g].value, a)
  {
    WholeNodeFound(site, st, g, wants, 0);
    var m :| 0 <= m < |st.avail| && IsWhole(site, st.avail[m]) && HasWanted(wants, st.avail[m].res)
             && TryWholeNode(site, st, g, wants, 0).value == Accept(st, g, m, AsRequests(st.avail[m].res), []);
    a := st.avail[m];
    assert a in st.avail;
    AcceptWorks(groups, st, g, m, AsRequests(a.res), [], t);
  }

  lemma {:induction false} PlaceAnywherePicks(site: Site, groups: seq<Group>, st: PlanState, todo: seq<nat>, i: nat, t: Table, uid: nat)
    returns (a: NodeAvail)
    requires Working(groups, st, t) && InRange(todo, |st.groups|) && PlaceAnywhere(site, st, todo, uid).Done?
    requires (forall j, k | 0 <= j < k < |todo| :: todo[j] < todo[k]) && i in todo && groups[i].Node?
    ensures var x := PlaceAnywhere(site, st, todo, uid).value.chosen[i];
            x.Some? && PickedFrom(t, site, groups[i].wants, x.value, a)
    decreases |todo|
  {
    var g, sorted, rest := todo[0], st.(avail := SortAvail(site, st.avail)), todo[1..];
    SortedAllStock(site, st.avail, t);
    assert forall j | 0 <= j < |rest| :: rest[j] == todo[j + 1];
    if g == i {
      a := TryWholePicks(site, groups, sorted, g, groups[g].wants, t, uid);
      PlaceAnywhereKeeps(site, TryWholeNode(site, sorted, g, groups[g].wants, 0).value, rest, uid, g);
    } else if st.groups[g].Node? {
      var b := TryWholePicks(site, groups, sorted, g, st.groups[g].wants, t, uid);
      a := PlaceAnywherePicks(site, groups, TryWholeNode(site, sorted, g, st.groups[g].wants, 0).value, rest, i, t, uid);
    } else {
      TryAnywhereWorks(groups, sorted, g, 0, t, uid);
      a := PlaceAnywherePicks(site, groups, TryAnywhere(sorted, g, 0, uid).value, rest, i, t, uid);
    }
  }

  // ------------------------------------------------------- from the start

  lemma {:induction false} CommitOnlyAdds(t: Table, gs: seq<Grant>, uid: nat)
    requires SafeTable(t) && CommitAll(t, gs, uid).Some?
    ensures var t' := CommitAll(t, gs, uid).value;
            SafeTable(t') && t'.Keys == t.Keys && forall k <- t :: Stems(t'[k], t)
    decreases |gs|
  {
    if gs != [] {
      var k := gs[0].key;
      var t1 := t[k := Grow(t[k], gs[0].req, uid)];
      GrowSafe(t[k], gs[0].req, uid);
      CommitOnlyAdds(t1, gs[1..], uid);
    }
  }

  lemma StartWorks(t: Table, site: Site, groups: seq<Group>, uid: nat)
    requires SafeTable(t) && NoDuplicates(site.order) && Start(t, site, groups, uid).Done?
    ensures Working(groups, Start(t, site, groups, uid).value, t)
  {
    var gs := GrantsOf(FixedByDOF(groups));
    StartAvailOk(t, site, gs, uid);
    CommitOnlyAdds(t, gs, uid);
  }

  lemma DroppedWorks(groups: seq<Group>, st: PlanState, t: Table)
    requires Working(groups, st, t)
    ensures Working(groups, st.(avail := DropEmpty(st.avail)), t)
  {
    DropEmptyMembers(st.avail);
  }

  lemma PlacePicks(t: Table, site: Site, groups: seq<Group>, st: PlanState, i: nat, uid: nat) returns (a: NodeAvail)
    requires Working(groups, st, t) && i < |groups| && groups[i].Node? && Place(site, groups, st, uid).Done?
    ensures var x := Place(site, groups, st, uid).value.chosen[i];
            x.Some? && PickedFrom(t, site, groups[i].wants, x.value, a)
  {
    WithDOFBounds(groups, 1, 0);
    WithDOFBounds(groups, 2, 0);
    WithDOFBounds(groups, 3, 0);
    PlaceIndexedWorks(site, groups, st, WithDOF(groups, 1, 0), t, uid);
    var st1 := PlaceIndexed(site, groups, st, WithDOF(groups, 1, 0), uid).value;
    PlaceHostedWorks(groups, st1, WithDOF(groups, 2, 0), t, uid);
    var st2 := PlaceHosted(st1, WithDOF(groups, 2, 0), uid).value;
    DroppedWorks(groups, st2, t);
    a := PlaceAnywherePicks(site, groups, st2.(avail := DropEmpty(st2.avail)), WithDOF(groups, 3, 0), i, t, uid);
  }

  lemma PlanPicks(t: Table, site: Site, groups: seq<Group>, i: nat, uid: nat) returns (a: NodeAvail)
    requires SafeTable(t) && NoDuplicates(site.order)
    requires Plan(t, site, groups, uid).Done? && i < |groups| && groups[i].Node?
    ensures i < |Plan(t, site, groups, uid).value|
    ensures PickedFrom(t, site, groups[i].wants, Plan(t, site, groups, uid).value[i], a)
  {
    var pasted := PasteAll(groups);
    PlanParts(t, site, groups, uid);
    StartWorks(t, site, pasted, uid);
    a := PlacePicks(t, site, pasted, Start(t, site, pasted, uid).value, i, uid);
  }

  // ---------------------------------------------------------- the result

  /** All of the node: everything it has is free, its GPUs have no owner, and x names
      each of its resources once and nothing else. */
  ghost predicate AllOfNode(t: Table, name: string, x: seq<Req>) {
    && (forall q <- x :: Keyed(q) && KeyOf(q) in t && KeyOf(q).host == name)
    && (forall i, j | 0 <= i < j < |x| :: Keyed(x[i]) && Keyed(x[j]) ==> KeyOf(x[i]) != KeyOf(x[j]))
    && (forall k <- t | k.host == name ::
          IsFree(t[k]) && (k.cls == GPU ==> t[k].owners == [] && !t[k].shared) && exists q <- x :: Keyed(q) && KeyOf(q) == k)
  }

  lemma {:induction false} AsRequestsAt(rs: seq<Res>)
    ensures |AsRequests(rs)| == |rs| && forall i | 0 <= i < |rs| :: AsRequests(rs)[i] == AsRequest(rs[i])
  {
    if rs != [] { AsRequestsAt(rs[1..]); }
  }

  /** What is free in a copy is free in the table. */
  lemma StemIsFree(r: Res, t: Table)
    requires SafeTable(t) && Stems(r, t) && IsFree(r)
    ensures IsFree(t[r.Key()])
    ensures r.Key().cls == GPU && !PartlyShared(r) ==> t[r.Key()].owners == [] && !t[r.Key()].shared
  {
  }

  /** All free resources of the node are there, and none is partly shared. */
  ghost predicate Passed(t: Table, name: string, hw: seq<Attrs>, rs: seq<Res>) {
    && Stock(rs, name, t) && DistinctKeys(hw) && (forall a <- hw :: 0 < BaseWeight(a))
    && (forall a: Attrs :: a in hw <==> a.key in t && a.key.host == name && t[a.key].attrs == a)
    && ((exists k <- t :: k.host == name) ==> TotalWeight(rs) == WeightOfAll(hw))
  }

  lemma ResourceIsThere(t: Table, name: string, hw: seq<Attrs>, rs: seq<Res>, k: Key)
    requires SafeTable(t) && Passed(t, name, hw, rs) && k in t && k.host == name
    ensures IsFree(t[k]) && (k.cls == GPU ==> t[k].owners == [] && !t[k].shared)
    ensures exists q <- AsRequests(rs) :: Keyed(q) && KeyOf(q) == k
  {
    forall r <- rs ensures r.attrs in hw { assert Stems(r, t) && t[r.Key()].attrs == r.attrs; }
    WholeTestExact(hw, rs);
    assert t[k].attrs in hw;
    var r :| r in rs && r.attrs == t[k].attrs;
    assert Stems(r, t) && !PartlyShared(r);
    StemIsFree(r, t);
    RequestedAs(rs, r);
    assert KeyOf(AsRequest(r)) == k;
  }

  lemma PicksAreNodes(t: Table, name: string, rs: seq<Res>)
    requires Stock(rs, name, t)
    ensures var x := AsRequests(rs);
            && (forall q <- x :: Keyed(q) && KeyOf(q) in t && KeyOf(q).host == name)
            && (forall i, j | 0 <= i < j < |x| :: Keyed(x[i]) && Keyed(x[j]) ==> KeyOf(x[i]) != KeyOf(x[j]))
  {
    var x := AsRequests(rs);
    AsRequestsAt(rs);
    forall i | 0 <= i < |x|
      ensures Keyed(x[i]) && KeyOf(x[i]) == rs[i].Key() && KeyOf(x[i]) in t && KeyOf(x[i]).host == name
    {
      assert rs[i] in rs && x[i] == AsRequest(rs[i]) && Stems(rs[i], t);
    }
  }

  /** When the test passes, nothing of the node is missing and no GPU of it is in use. */
  lemma PassedMeansWhole(t: Table, name: string, hw: seq<Attrs>, rs: seq<Res>)
    requires SafeTable(t) && Passed(t, name, hw, rs)
    ensures AllOfNode(t, name, AsRequests(rs))
  {
    PicksAreNodes(t, name, rs);
    forall k <- t | k.host == name
      ensures IsFree(t[k]) && (k.cls == GPU ==> t[k].owners == [] && !t[k].shared)
      ensures exists q <- AsRequests(rs) :: Keyed(q) && KeyOf(q) == k
    {
      ResourceIsThere(t, name, hw, rs, k);
    }
  }

  /** A node picked as whole is whole. */
  lemma NodePickIsWhole(t: Table, site: Site, groups: seq<Group>, i: nat, uid: nat) returns (a: NodeAvail)
    requires SafeTable(t) && NoDuplicates(site.order) && Weighed(t, site) && PositiveWeights(t)
    requires Plan(t, site, groups, uid).Done? && i < |groups| && groups[i].Node?
    ensures i < |Plan(t, site, groups, uid).value|
    ensures var x := Plan(t, site, groups, uid).value[i];
            AllOfNode(t, a.name, x) && x == AsRequests(a.res) && HasWanted(groups[i].wants, a.res)
  {
    a := PlanPicks(t, site, groups, i, uid);
    var hw := HardwareOn(site.order, t, a.name);
    HardwareIs(site.order, t, a.name);
    forall b <- hw ensures 0 < BaseWeight(b) { assert t[b.key].attrs == b; }
    forall b: Attrs | b.key in t && b.key.host == a.name && t[b.key].attrs == b ensures b in hw { assert b.key in site.order; }
    PassedMeansWhole(t, a.name, hw, a.res);
  }
}
