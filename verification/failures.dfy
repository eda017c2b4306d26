/** Requests that are planned, accepted by all schedulers, and still fail: a GPU on a node
    nobody manages, a node asked for by name where another was picked, and a GPU that does
    not match a request made from itself. */
module Failures {
  import opened Resources
  import opened Ledger
  import opened Matchers
  import opened MatchingSteps
  import opened Planner
  import opened PlanCommits
  import opened PlanTheorem
  import opened PlanSound
  import opened LookAhead
  import opened Requests
  import opened Commit
  import opened Allocating

  // ------------------------------------------------------ one fixed request

  lemma OneGroup(g: Group, d: nat)
    ensures WithDOF([g], d, 0) == if GroupDOF(g) == d then [0] else []
    ensures FixedWithDOF([g], d) == if GroupDOF(g) == d then FixedOf(GroupReqs(g)) else []
    ensures FixedAll([g]) == FixedOf(GroupReqs(g))
  {
    assert [g][1..] == [];
    assert FixedOf(GroupReqs(g)) + [] == FixedOf(GroupReqs(g));
    assert WithDOF([g], d, 1) == [];
  }

  lemma OneFixed(q: Req)
    requires Keyed(q)
    ensures FixedOf([q]) == [q] && GroupDOF(Reqs([q])) == 0 && PasteAll([Reqs([q])]) == [Reqs([q])] && WellHosted([q])
    ensures GrantsOf([q]) == [Grant(KeyOf(q), q)]
  {
    assert [q][1..] == [];
    assert FirstHost([q]) == q.host && Paste([q]) == [q];
    assert MaxDOF([q][1..]) == 0 && DOF(q) == 0;
  }

  lemma OneFixedIsValid(t: Table, site: Site, q: Req)
    requires SafeTable(t) && Keyed(q) && KeyOf(q) in t && CanAllocate(t[KeyOf(q)], q) && Eligible(site, KeyOf(q))
    ensures Validate(t, site, [Reqs([q])]) == None
  {
    OneFixed(q);
    OneGroup(Reqs([q]), 0);
    assert CheckFixed(t, site, q) == None;
    assert CheckAllFixed(t, site, [q], 1) == None;
  }

  lemma NothingToPlace(site: Site, groups: seq<Group>, st: PlanState, uid: nat)
    requires Shaped(st) && |st.groups| == |groups|
    requires WithDOF(groups, 1, 0) == [] && WithDOF(groups, 2, 0) == [] && WithDOF(groups, 3, 0) == []
    ensures Planner.Place(site, groups, st, uid) == Done(st.(avail := DropEmpty(st.avail)))
  {
  }

  /** A fixed request for a resource that can serve it is planned as it is. */
  lemma OneFixedIsPlanned(t: Table, site: Site, q: Req, uid: nat)
    requires SafeTable(t) && Keyed(q) && KeyOf(q) in t && CanAllocate(t[KeyOf(q)], q) && Eligible(site, KeyOf(q))
    ensures Plan(t, site, [Reqs([q])], uid) == Done([[q]])
  {
    var groups := [Reqs([q])];
    OneFixed(q);
    OneFixedIsValid(t, site, q);
    OneGroup(groups[0], 0);
    OneGroup(groups[0], 1);
    OneGroup(groups[0], 2);
    OneGroup(groups[0], 3);
    assert FixedByDOF(groups) == [q];
    var pool := FreePool(t, site);
    assert KeyOf(q) in pool && pool[KeyOf(q)] == t[KeyOf(q)];
    OneCommits(pool, Grant(KeyOf(q), q), uid);
    var st := Start(t, site, groups, uid).value;
    assert st.chosen == [Some([q])];
    NothingToPlace(site, groups, st, uid);
    assert Chosen(st.chosen) == [[q]];
  }

  lemma OneCommits(t: Table, g: Grant, uid: nat)
    ensures CommitAll(t, [g], uid) ==
              if g.key in t && CanAllocate(t[g.key], g.req) then Some(t[g.key := Grow(t[g.key], g.req, uid)]) else None
  {
    assert [g][1..] == [];
  }

  // ---------------------------------------------------------- unmanaged nodes

  /** A GPU that could serve the request, on a usable node no scheduler manages: it is
      planned, no scheduler is asked, the commit fails, and the GPU stays taken. */
  lemma UnmanagedGpuLeaks(t: Table, site: Site, q: Req, uid: nat, schedulers: seq<Scheduler>, answers: seq<bool>)
    requires |answers| == |schedulers| && Orderly(t, site) && NeedsLauncher(q)
    requires Keyed(q) && KeyOf(q) in t && CanAllocate(t[KeyOf(q)], q) && Eligible(site, KeyOf(q))
    requires !Manages(schedulers, q.host.value)
    ensures Plan(t, site, ExpandAll([Item.Single(q)]), uid) == Done([[q]])
    ensures Perform(t, site, [Item.Single(q)], uid, schedulers, answers)
         == (Raised(CommitFailed), t[KeyOf(q) := Grow(t[KeyOf(q)], q, uid)])
  {
    var items, plan := [Item.Single(q)], [[q]];
    OneItem(items[0]);
    assert Expand(items[0]) == [Reqs([q])];
    OneFixedIsPlanned(t, site, q, uid);
    PerformFollowsPlan(t, site, items, uid, schedulers, answers, Done(plan));
    UnmanagedFails(t, q, uid, schedulers, answers);
  }

  lemma UnmanagedFails(t: Table, q: Req, uid: nat, schedulers: seq<Scheduler>, answers: seq<bool>)
    requires |answers| == |schedulers| && NeedsLauncher(q) && Keyed(q) && KeyOf(q) in t && CanAllocate(t[KeyOf(q)], q)
    requires !Manages(schedulers, q.host.value) && AllAnswerable([Item.Single(q)], [[q]])
    ensures PerformPlan(t, [Item.Single(q)], [[q]], uid, schedulers, answers)
         == (Raised(CommitFailed), t[KeyOf(q) := Grow(t[KeyOf(q)], q, uid)])
  {
    var items, plan := [Item.Single(q)], [[q]];
    OneList([q]);
    OnlyNode(q);
    forall i | 0 <= i < |schedulers| ensures !Asked(schedulers[i], {q.host.value}) { assert schedulers[i] in schedulers; }
    var launched := Launched(schedulers, {q.host.value});
    assert q.host.value !in launched;
    StuckAtFirst(t, items[0], q, uid, launched);
    assert plan[..1] == plan;
  }

  lemma OneItem(item: Item<Req>)
    ensures ExpandAll([item]) == Expand(item)
  {
    assert [item][1..] == [] && Expand(item) + [] == Expand(item);
  }

  lemma OneList(qs: seq<Req>)
    ensures Concat([qs]) == qs
  {
    assert [qs][1..] == [] && qs + [] == qs;
  }

  lemma OnlyNode(q: Req)
    requires Keyed(q) && NeedsLauncher(q)
    ensures GpuHosts([q]) == {q.host.value}
  {
    forall h | h in GpuHosts([q]) ensures h == q.host.value {}
    assert q in [q];
  }

  lemma StuckAtFirst(t: Table, item: Item<Req>, q: Req, uid: nat, launched: set<string>)
    requires item == Item.Single(q) && Keyed(q) && KeyOf(q) in t && CanAllocate(t[KeyOf(q)], q)
    requires NeedsLauncher(q) && q.host.value !in launched
    ensures CommitItem(t, item, [[q]], uid, launched) == Step(false, t[KeyOf(q) := Grow(t[KeyOf(q)], q, uid)], [])
  {
    assert CommitReqs(t, [q], uid, launched) == Step(false, t[KeyOf(q) := Grow(t[KeyOf(q)], q, uid)], []);
  }

  // ------------------------------------------------------- a node of one's own

  /** A table with one resource, and the site it makes. */
  function Only(r: Res): Table { map[r.Key() := r] }

  function OnlySite(r: Res): Site { Site([r.Key()], map[], map[r.Key().host := Weight(r)], {}, {}) }

  function NodeRequest(host: Option<string>): seq<Group> { [Node(host, [])] }

  predicate Untouched(r: Res) { r.owners == [] && r.serverOwners == [] && !r.shared }

  lemma OnlyIsFine(r: Res)
    requires Untouched(r)
    ensures Orderly(Only(r), OnlySite(r)) && Eligible(OnlySite(r), r.Key()) && IsFree(r)
    ensures FreePool(Only(r), OnlySite(r)) == Only(r)
  {
  }

  lemma OnlyAvail(r: Res)
    requires Untouched(r)
    ensures Hosts([r.Key()], OnlySite(r)) == [r.Key().host]
    ensures AvailOn([r.Key()], Only(r), [r.Key().host]) == [NodeAvail(r.Key().host, [r])]
  {
    var k, h := r.Key(), r.Key().host;
    assert [k][..0] == [] && [k][1..] == [] && [h][1..] == [];
    assert Hosts([], OnlySite(r)) == [];
    assert FreeOn([k], Only(r), h) == [r];
    assert AvailOn([k], Only(r), []) == [];
  }

  lemma NodeStart(r: Res, host: Option<string>, uid: nat)
    requires Untouched(r)
    ensures PasteAll(NodeRequest(host)) == NodeRequest(host) && Validate(Only(r), OnlySite(r), NodeRequest(host)) == None
    ensures Start(Only(r), OnlySite(r), NodeRequest(host), uid)
         == Done(PlanState(NodeRequest(host), [NodeAvail(r.Key().host, [r])], [None]))
  {
    var groups := NodeRequest(host);
    OnlyIsFine(r);
    OnlyAvail(r);
    OneGroup(groups[0], 0);
    OneGroup(groups[0], 1);
    OneGroup(groups[0], 2);
    OneGroup(groups[0], 3);
    assert FixedByDOF(groups) == [];
    assert StartChosen(groups) == [None];
  }

  /** Whatever node is asked for by name, the only one there is gets picked. */
  lemma NodeIsPlanned(r: Res, host: Option<string>, uid: nat)
    requires Untouched(r)
    ensures Plan(Only(r), OnlySite(r), NodeRequest(host), uid) == Done([[AsRequest(r)]])
  {
    var groups, site := NodeRequest(host), OnlySite(r);
    var st := PlanState(groups, [NodeAvail(r.Key().host, [r])], [None]);
    NodeStart(r, host, uid);
    OneGroup(groups[0], 1);
    OneGroup(groups[0], 2);
    OneGroup(groups[0], 3);
    OnlyNodeTaken(r, host, uid);
    OneLeft(st.avail[0]);
    TakenIsChosen(r, st);
    OnlyAnywhere(site, groups, st, uid);
    PlannedAs(Only(r), site, groups, st, Accept(st, 0, 0, [AsRequest(r)], []), uid);
  }

  lemma OnlyAnywhere(site: Site, groups: seq<Group>, st: PlanState, uid: nat)
    requires Shaped(st) && |st.groups| == |groups| == 1 && DropEmpty(st.avail) == st.avail
    requires WithDOF(groups, 1, 0) == [] && WithDOF(groups, 2, 0) == [] && WithDOF(groups, 3, 0) == [0]
    ensures Planner.Place(site, groups, st, uid) == PlaceAnywhere(site, st, [0], uid)
  {
  }

  lemma PlannedAs(t: Table, site: Site, groups: seq<Group>, st: PlanState, st': PlanState, uid: nat)
    requires Shaped(st) && |st.groups| == |groups| && PasteAll(groups) == groups && Validate(t, site, groups) == None
    requires Start(t, site, groups, uid) == Done(st) && Planner.Place(site, groups, st, uid) == Done(st')
    ensures Plan(t, site, groups, uid) == Done(Chosen(st'.chosen))
  {
  }

  lemma TakenIsChosen(r: Res, st: PlanState)
    requires Shaped(st) && st.chosen == [None] && |st.avail| == 1
    ensures Chosen(Accept(st, 0, 0, [AsRequest(r)], []).chosen) == [[AsRequest(r)]]
  {
  }

  lemma OneLeft(a: NodeAvail)
    requires a.res != []
    ensures DropEmpty([a]) == [a]
  {
    assert [a][1..] == [];
  }

  lemma OnlyNodeTaken(r: Res, host: Option<string>, uid: nat)
    requires Untouched(r)
    ensures var st := PlanState(NodeRequest(host), [NodeAvail(r.Key().host, [r])], [None]);
            PlaceAnywhere(OnlySite(r), st, [0], uid) == Done(Accept(st, 0, 0, [AsRequest(r)], []))
  {
    var site, a := OnlySite(r), NodeAvail(r.Key().host, [r]);
    var st := PlanState(NodeRequest(host), [a], [None]);
    SortOne(r);
    assert [a][1..] == [] && [r][1..] == [] && [0][1..] == [];
    assert SortAvail(site, []) == [];
    assert SortAvail(site, [a]) == [a];
    assert TotalWeight([r]) == Weight(r) + TotalWeight([]);
    assert IsWhole(site, a) && HasWanted([], [r]);
    assert AsRequests([r]) == [AsRequest(r)];
    assert TryWholeNode(site, st, 0, [], 0) == Done(Accept(st, 0, 0, [AsRequest(r)], []));
  }

  // --------------------------------------------------- the name of a node

  /** A node asked for by name, where another is the only one there is: it is planned and
      granted, the answer cannot be put together, and the resource stays taken. */
  lemma NamedNodeLeaks(r: Res, name: string, uid: nat, schedulers: seq<Scheduler>, answers: seq<bool>)
    requires Untouched(r) && TypeSearchMatch(r.attrs, AsRequest(r)) && name != r.Key().host
    requires |answers| == |schedulers| && forall i | 0 <= i < |answers| :: answers[i]
    ensures Plan(Only(r), OnlySite(r), ExpandAll([Item.WholeNode(Some(name), [])]), uid) == Done([[AsRequest(r)]])
    ensures Perform(Only(r), OnlySite(r), [Item.WholeNode(Some(name), [])], uid, schedulers, answers).0.Raised?
    ensures Perform(Only(r), OnlySite(r), [Item.WholeNode(Some(name), [])], uid, schedulers, answers).1 != Only(r)
  {
    var items, plan := [Item.WholeNode(Some(name), [])], [[AsRequest(r)]];
    OneItem(items[0]);
    OnlyIsFine(r);
    NodeIsPlanned(r, Some(name), uid);
    NodeIsPlain(r, Some(name));
    CommitSucceedsExactly(Only(r), OnlySite(r), items, uid, schedulers, answers);
    assert plan[..1] == plan && AsRequest(r) in plan[0];
    assert Misplaced(items[0], plan[..1]);
  }

  lemma NodeIsPlain(r: Res, host: Option<string>)
    requires Untouched(r)
    ensures !Spoilable(PasteAll(NodeRequest(host)))
    ensures TypeSearchMatch(r.attrs, AsRequest(r)) ==> SelfMatching(Only(r))
  {
    assert PasteAll(NodeRequest(host)) == NodeRequest(host);
    assert forall g <- NodeRequest(host) :: GroupDOF(g) == 3;
  }

  // ------------------------------------------- resources unlike themselves

  /** A node's resources can all be committed as they are picked exactly if each of them
      matches a request made from itself. */
  lemma {:induction false} WholeNodeCommitsExactly(rs: seq<Res>, t: Table, uid: nat)
    requires SafeTable(t) && Backed(rs, t)
    ensures CommitAll(t, GrantsOf(AsRequests(rs)), uid).Some? <==> forall r <- rs :: TypeSearchMatch(r.attrs, AsRequest(r))
  {
    if forall r <- rs :: TypeSearchMatch(r.attrs, AsRequest(r)) { WholeNodeCommits(rs, t, uid); }
    if CommitAll(t, GrantsOf(AsRequests(rs)), uid).Some? {
      AsRequestsKeyed(rs);
      forall r <- rs
        ensures TypeSearchMatch(r.attrs, AsRequest(r))
      {
        RequestedAs(rs, r);
        CommittedFits(t, AsRequests(rs), uid, AsRequest(r));
      }
    }
  }

  lemma {:induction false} AsRequestsKeyed(rs: seq<Res>)
    ensures forall q <- AsRequests(rs) :: Keyed(q)
  {
    if rs != [] { AsRequestsKeyed(rs[1..]); }
  }

  /** A GPU that insists on scanouts without having any, alone on its node: the node is
      planned as a whole, but cannot be committed. */
  lemma UnmatchedGpuFails(r: Res, uid: nat, schedulers: seq<Scheduler>, answers: seq<bool>)
    requires Untouched(r) && r.Key().cls == GPU && r.attrs.useScanOut == Some(true) && r.attrs.scanoutCaps.None?
    requires |answers| == |schedulers| && forall i | 0 <= i < |answers| :: answers[i]
    ensures Plan(Only(r), OnlySite(r), ExpandAll([Item.WholeNode(None, [])]), uid) == Done([[AsRequest(r)]])
    ensures Perform(Only(r), OnlySite(r), [Item.WholeNode(None, [])], uid, schedulers, answers).0 == Raised(CommitFailed)
  {
    var items, q := [Item.WholeNode(None, [])], AsRequest(r);
    var plan := [[q]];
    OneItem(items[0]);
    OnlyIsFine(r);
    NodeIsPlanned(r, None, uid);
    SelfMatch(r);
    PerformFollowsPlan(Only(r), OnlySite(r), items, uid, schedulers, answers, Done(plan));
    UnmatchedFails(r, uid, schedulers, answers);
  }

  lemma UnmatchedFails(r: Res, uid: nat, schedulers: seq<Scheduler>, answers: seq<bool>)
    requires Untouched(r) && !TypeSearchMatch(r.attrs, AsRequest(r))
    requires |answers| == |schedulers| && forall i | 0 <= i < |answers| :: answers[i]
    requires AllAnswerable([Item.WholeNode(None, [])], [[AsRequest(r)]])
    ensures PerformPlan(Only(r), [Item.WholeNode(None, [])], [[AsRequest(r)]], uid, schedulers, answers).0 == Raised(CommitFailed)
  {
    var q := AsRequest(r);
    var plan := [[q]];
    OneList([q]);
    assert plan[..1] == plan && Marked(Only(r), [q]);
    assert !Served?(Only(r), q);
    assert forall launched: set<string> :: CommitReqs(Only(r), [q], uid, launched) == Step(false, Only(r), []);
  }
}
