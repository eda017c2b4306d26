/** Requests for a whole node: they are planned exactly if some node passes as whole and has
    what is wanted, and get the first such node. */
module WholePlan {
  import opened Resources
  import opened Ledger
  import opened Matchers
  import opened Planner
  import opened PlanCommits
  import opened PlanTheorem
  import opened Waiting
  import opened WholeNode
  import opened Sorting
  import opened Checks
  import opened SingleRequests
  import opened FreeLists
  import opened Lightest
  import InTurn

  /** A usable node that has something free, which weighs what the node weighs as a whole,
      and, lightest first, has what is wanted. */
  ghost predicate Fitting(t: Table, site: Site, wants: seq<Req>, h: string) {
    && Usable(site, h) && FreeAt(t, site, h) != []
    && TotalWeight(FreeAt(t, site, h)) == (if h in site.whenFree then site.whenFree[h] else 0)
    && HasWanted(wants, SortRes(FreeAt(t, site, h)))
  }

  function Whole(host: Option<string>, wants: seq<Req>): seq<Group> { [Node(host, wants)] }

  /** The nodes as step 4 has them: those with something free, each sorted, in order. */
  lemma NodesInLine(t: Table, site: Site, host: Option<string>, wants: seq<Req>, uid: nat) returns (st: PlanState)
    requires Complete(t, site)
    ensures Start(t, site, Whole(host, wants), uid) == Done(st) && Shaped(st) && st.groups == Whole(host, wants)
    ensures var avail := SortAvail(site, DropEmpty(st.avail));
            && InStep(t, site, avail) && InLine(site, avail)
            && forall a <- avail :: a.res == SortRes(FreeAt(t, site, a.name)) && FreeAt(t, site, a.name) != []
  {
    var pool, hosts := FreePool(t, site), Hosts(site.order, site);
    assert CommitAll(pool, [], uid) == Some(pool) && CommitAll(t, [], uid) == Some(t);
    st := NothingFixedBegins(t, site, Node(host, wants), uid);
    InTurn.StartInStep(t, site, [], uid);
    DroppedInStep(t, site, st.avail);
    SortedInStep(t, site, DropEmpty(st.avail));
    SortedMembers(site, DropEmpty(st.avail));
    DroppedMembers(st.avail);
    forall b <- SortAvail(site, DropEmpty(st.avail))
      ensures b.res == SortRes(FreeAt(t, site, b.name)) && FreeAt(t, site, b.name) != []
    {
      var a :| a in DropEmpty(st.avail) && b == a.(res := SortRes(a.res));
      var i :| 0 <= i < |st.avail| && st.avail[i] == a;
    }
  }

  lemma ListedFitting(t: Table, site: Site, wants: seq<Req>, avail: seq<NodeAvail>, m: nat)
    requires Complete(t, site) && InStep(t, site, avail) && m < |avail|
    requires forall a <- avail :: a.res == SortRes(FreeAt(t, site, a.name)) && FreeAt(t, site, a.name) != []
    ensures Suitable(site, wants, avail[m]) <==> Fitting(t, site, wants, avail[m].name)
  {
    assert avail[m] in avail;
    SortResWeight(FreeAt(t, site, avail[m].name));
  }

  /** Each fitting node is listed. */
  lemma FittingListed(t: Table, site: Site, wants: seq<Req>, avail: seq<NodeAvail>, h: string) returns (j: nat)
    requires Complete(t, site) && InStep(t, site, avail) && Fitting(t, site, wants, h)
    ensures j < |avail| && avail[j].name == h
  {
    var r := FreeAt(t, site, h)[0];
    FreeOnMembers(site.order, FreePool(t, site), h);
    assert r in FreeAt(t, site, h);
    var k :| k in site.order && k.host == h && k in FreePool(t, site) && r == t[k];
    j := ListedAt(t, site, avail, k);
  }

  lemma PlacedWhole(site: Site, host: Option<string>, wants: seq<Req>, st: PlanState, uid: nat)
    requires Shaped(st) && st.groups == Whole(host, wants)
    ensures Place(site, st.groups, st, uid) == TryWholeNode(site, Sorted(site, Dropped(st)), 0, wants, 0)
  {
    OneGroupTodo(Node(host, wants), 1);
    OneGroupTodo(Node(host, wants), 2);
    OneGroupTodo(Node(host, wants), 3);
    assert [0][1..] == [];
    var o := TryWholeNode(site, Sorted(site, Dropped(st)), 0, wants, 0);
    if o.Done? { assert PlaceAnywhere(site, o.value, [], uid) == o; }
  }

  lemma PlannedWhole(t: Table, site: Site, host: Option<string>, wants: seq<Req>, st: PlanState, uid: nat)
    requires Start(t, site, Whole(host, wants), uid) == Done(st) && Shaped(st) && st.groups == Whole(host, wants)
    ensures Plan(t, site, Whole(host, wants), uid) ==
              match Place(site, st.groups, st, uid) case Raised(e) => Raised(e) case Done(st') => Done(Chosen(st'.chosen))
  {
    var groups := Whole(host, wants);
    OneGroupTodo(groups[0], 0);
    assert PasteAll(groups) == groups;
    assert Validate(t, site, groups).None?;
  }

  /** A whole node is planned exactly if some node is fitting, and the first of those in
      order is picked, resource by resource; otherwise it is the user's error. */
  lemma NodePlannedExactly(t: Table, site: Site, host: Option<string>, wants: seq<Req>, uid: nat) returns (h: string)
    requires Complete(t, site)
    ensures var plan := Plan(t, site, Whole(host, wants), uid);
            if exists l :: Fitting(t, site, wants, l) then
              && Fitting(t, site, wants, h) && plan == Done([AsRequests(SortRes(FreeAt(t, site, h)))])
              && forall l | Fitting(t, site, wants, l) && l != h :: InOrder(site, FreeNode(t, site, h), FreeNode(t, site, l))
            else plan == Raised(UserError)
  {
    var st := NodesInLine(t, site, host, wants, uid);
    var avail := SortAvail(site, DropEmpty(st.avail));
    var m := FirstSuitable(site, Sorted(site, Dropped(st)), 0, wants, 0);
    PlannedAt(t, site, host, wants, st, m, uid);
    h := "";
    if m < |avail| {
      h := avail[m].name;
      assert avail[m] in avail;
      FirstFitting(t, site, wants, avail, m);
    } else {
      NoneFitting(t, site, wants, avail);
    }
  }

  lemma AcceptedAlone(s: PlanState, m: nat, x: seq<Req>)
    requires Shaped(s) && |s.groups| == 1 && m < |s.avail|
    ensures Chosen(Accept(s, 0, m, x, []).chosen) == [x]
  {
  }

  /** The plan, if the search ends at node m. */
  lemma PlannedAt(t: Table, site: Site, host: Option<string>, wants: seq<Req>, st: PlanState, m: nat, uid: nat)
    requires Start(t, site, Whole(host, wants), uid) == Done(st) && Shaped(st) && st.groups == Whole(host, wants)
    requires var s := Sorted(site, Dropped(st));
             m <= |s.avail| && TryWholeNode(site, s, 0, wants, 0)
                               == if m == |s.avail| then Raised(UserError) else Done(Accept(s, 0, m, AsRequests(s.avail[m].res), []))
    ensures var avail := SortAvail(site, DropEmpty(st.avail));
            Plan(t, site, Whole(host, wants), uid) == if m == |avail| then Raised(UserError) else Done([AsRequests(avail[m].res)])
  {
    PlannedWhole(t, site, host, wants, st, uid);
    PlacedWhole(site, host, wants, st, uid);
    var s := Sorted(site, Dropped(st));
    if m < |s.avail| { AcceptedAlone(s, m, AsRequests(s.avail[m].res)); }
  }

  lemma NoneFitting(t: Table, site: Site, wants: seq<Req>, avail: seq<NodeAvail>)
    requires Complete(t, site) && InStep(t, site, avail) && NoneSuitable(site, wants, avail, 0, |avail|)
    requires forall a <- avail :: a.res == SortRes(FreeAt(t, site, a.name)) && FreeAt(t, site, a.name) != []
    ensures !exists l :: Fitting(t, site, wants, l)
  {
    forall l | Fitting(t, site, wants, l)
      ensures false
    {
      var j := FittingListed(t, site, wants, avail, l);
      ListedFitting(t, site, wants, avail, j);
    }
  }

  lemma FirstFitting(t: Table, site: Site, wants: seq<Req>, avail: seq<NodeAvail>, m: nat)
    requires Complete(t, site) && InStep(t, site, avail) && InLine(site, avail) && m < |avail|
    requires forall a <- avail :: a.res == SortRes(FreeAt(t, site, a.name)) && FreeAt(t, site, a.name) != []
    requires Suitable(site, wants, avail[m]) && NoneSuitable(site, wants, avail, 0, m)
    ensures Fitting(t, site, wants, avail[m].name)
    ensures forall l | Fitting(t, site, wants, l) && l != avail[m].name :: InOrder(site, FreeNode(t, site, avail[m].name), FreeNode(t, site, l))
  {
    ListedFitting(t, site, wants, avail, m);
    forall l | Fitting(t, site, wants, l) && l != avail[m].name
      ensures InOrder(site, FreeNode(t, site, avail[m].name), FreeNode(t, site, l))
    {
      var j := FittingListed(t, site, wants, avail, l);
      ListedFitting(t, site, wants, avail, j);
      ListedOrder(t, site, avail, m, j);
    }
  }
}
