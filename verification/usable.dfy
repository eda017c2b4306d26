/** Nothing is ever planned on a node that is down, or not among the nodes the caller
    names, whatever is asked. */
module UsableNodes {
  import opened Resources
  import opened Ledger
  import opened Matchers
  import opened MatchingSteps
  import opened Planner
  import opened PlanCommits
  import opened PlanTheorem
  import opened PlanSound
  import opened Waiting
  import opened Checks
  import opened Requests
  import opened Commit
  import opened Allocating
  import opened Answers
  import WholePick
  import FreeLists

  ghost predicate OnUsable(site: Site, q: Req) { q.host.Some? && Usable(site, q.host.value) }

  /** A request, if it is fixed, is for a usable node. */
  ghost predicate Fine(site: Site, q: Req) { DOF(q) == 0 ==> OnUsable(site, q) }

  ghost predicate AllFine(site: Site, groups: seq<Group>) {
    forall i | 0 <= i < |groups| :: forall q <- GroupReqs(groups[i]) :: Fine(site, q)
  }

  // -------------------------------------------------------- matching a node

  ghost predicate AtHost(rs: seq<Res>, name: string) { forall r <- rs :: r.Key().host == name }

  lemma TakeAtHost(rs: seq<Res>, i: nat, q: Req, uid: nat, name: string)
    requires AtHost(rs, name) && i < |rs|
    ensures AtHost(TakeAt(rs, i, q, uid), name)
  {
    assert rs[i] in rs;
    forall r <- TakeAt(rs, i, q, uid)
      ensures r.Key().host == name
    {
      assert r in rs || r == Grow(rs[i], q, uid);
    }
  }

  lemma {:induction false} FixedAtHost(reqs: seq<Req>, rs: seq<Res>, uid: nat, name: string)
    requires AtHost(rs, name) && MatchFixed(reqs, rs, uid).Some?
    ensures AtHost(MatchFixed(reqs, rs, uid).value, name)
    decreases |reqs|
  {
    if reqs != [] {
      var i := FirstFit(rs, reqs[0]);
      TakeAtHost(rs, i, reqs[0], uid, name);
      FixedAtHost(reqs[1..], TakeAt(rs, i, reqs[0], uid), uid, name);
    }
  }

  /** Each request is left as it was, or is on this node; and all that were open are, if
      all are served. */
  ghost predicate LeftAtHost(reqs: seq<Req>, m: Match, name: string) {
    && |m.reqs| == |reqs|
    && (forall j | 0 <= j < |reqs| :: m.reqs[j] == reqs[j] || m.reqs[j].host == Some(name))
    && (m.Matched? ==> AtHost(m.rest, name) && forall j | 0 <= j < |reqs| && DOF(reqs[j]) != 0 :: m.reqs[j].host == Some(name))
  }

  lemma FirstLeft(q: Req, p: Req, reqs: seq<Req>, m: Match, name: string)
    requires reqs != [] && reqs[0] == q && LeftAtHost(reqs[1..], m, name) && ((p == q && DOF(q) == 0) || p.host == Some(name))
    ensures LeftAtHost(reqs, After([p], m), name)
  {
    var all := After([p], m).reqs;
    forall j | 0 < j < |reqs|
      ensures all[j] == m.reqs[j - 1] && reqs[j] == reqs[1..][j - 1]
    {
    }
  }

  lemma {:induction false} AssignAtHost(reqs: seq<Req>, rs: seq<Res>, uid: nat, name: string)
    requires AtHost(rs, name)
    ensures LeftAtHost(reqs, AssignFree(reqs, rs, uid), name)
    decreases |reqs|
  {
    if reqs != [] && DOF(reqs[0]) == 0 {
      AssignAtHost(reqs[1..], rs, uid, name);
      FirstLeft(reqs[0], reqs[0], reqs, AssignFree(reqs[1..], rs, uid), name);
    } else if reqs != [] && reqs[0].cls.Some? && FirstFit(rs, reqs[0]) < |rs| {
      var i := FirstFit(rs, reqs[0]);
      var p := Resolve(reqs[0], rs[i].Key());
      var left := TakeAt(rs, i, p, uid);
      assert rs[i] in rs;
      TakeAtHost(rs, i, p, uid, name);
      AssignAtHost(reqs[1..], left, uid, name);
      FirstLeft(reqs[0], p, reqs, AssignFree(reqs[1..], left, uid), name);
    }
  }

  lemma MatchAtHost(reqs: seq<Req>, rs: seq<Res>, uid: nat, name: string)
    requires AtHost(rs, name)
    ensures LeftAtHost(reqs, MatchPartly(reqs, rs, uid), name)
  {
    var left := MatchFixed(FixedOf(reqs), rs, uid);
    if left.Some? {
      FixedAtHost(FixedOf(reqs), rs, uid, name);
      ByClassMembers(left.value);
      AssignAtHost(reqs, ByClass(left.value), uid, name);
    }
  }

  // ------------------------------------------------------- the plan under way

  lemma {:induction false} FillMembers(reqs: seq<Req>, picks: seq<Req>)
    requires |picks| == |FreeOf(reqs)|
    ensures forall x <- Fill(reqs, picks) :: x in picks || (x in reqs && DOF(x) == 0)
    decreases |reqs|
  {
    if reqs != [] {
      assert reqs == [reqs[0]] + reqs[1..];
      if DOF(reqs[0]) == 0 { FillMembers(reqs[1..], picks); } else { FillMembers(reqs[1..], picks[1..]); }
    }
  }

  /** All lists are of usable nodes, and so is all that has been chosen. */
  ghost predicate Kept(site: Site, st: PlanState) {
    && Shaped(st) && AllFine(site, st.groups)
    && (forall a <- st.avail :: OnNode(a) && Usable(site, a.name))
    && forall i | 0 <= i < |st.chosen| && st.chosen[i].Some? :: forall q <- st.chosen[i].value :: OnUsable(site, q)
  }

  lemma FilledOnUsable(site: Site, reqs: seq<Req>, picks: seq<Req>, name: string)
    requires Usable(site, name) && |picks| == |FreeOf(reqs)| && forall p <- picks :: p.host == Some(name)
    requires forall q <- reqs :: Fine(site, q)
    ensures forall q <- Fill(reqs, picks) :: OnUsable(site, q)
  {
    FillMembers(reqs, picks);
  }

  lemma AcceptKept(site: Site, st: PlanState, g: nat, n: nat, x: seq<Req>, rest: seq<Res>)
    requires Kept(site, st) && g < |st.groups| && n < |st.avail|
    requires AtHost(rest, st.avail[n].name) && forall q <- x :: OnUsable(site, q)
    ensures Kept(site, Accept(st, g, n, x, rest))
  {
    var st' := Accept(st, g, n, x, rest);
    assert st.avail[n] in st.avail;
    forall a <- st'.avail
      ensures OnNode(a) && Usable(site, a.name)
    {
      assert a in st.avail || a == st.avail[n].(res := rest);
    }
  }

  // ------------------------------------------------------------- the steps

  lemma WriteFine(site: Site, groups: seq<Group>, r: Ref, q: Req)
    requires AllFine(site, groups) && Fine(site, q)
    ensures AllFine(site, WriteRef(groups, r, q))
  {
    var groups' := WriteRef(groups, r, q);
    forall i | 0 <= i < |groups'|
      ensures forall p <- GroupReqs(groups'[i]) :: Fine(site, p)
    {
      forall p <- GroupReqs(groups'[i]) ensures p == q || p in GroupReqs(groups[i]) { }
    }
  }

  lemma {:induction false} WritesFine(site: Site, groups: seq<Group>, refs: seq<Ref>, qs: seq<Req>)
    requires AllFine(site, groups) && forall q <- qs :: Fine(site, q)
    ensures AllFine(site, WriteRefs(groups, refs, qs))
    decreases |refs|
  {
    if refs != [] && qs != [] {
      WriteFine(site, groups, refs[0], qs[0]);
      WritesFine(site, WriteRef(groups, refs[0], qs[0]), refs[1..], qs[1..]);
    }
  }

  /** What a look-ahead writes is fine. */
  lemma LookedFine(site: Site, groups0: seq<Group>, live: seq<Group>, rest: seq<Res>, name: string, uid: nat)
    requires AllFine(site, live) && AtHost(rest, name) && Usable(site, name)
    ensures AllFine(site, Looked(groups0, live, name, rest, uid))
  {
    var refs := RefsFor(groups0, 0, name);
    var qs := ReadRefs(live, refs);
    var look := MatchPartly(qs, rest, uid);
    MatchAtHost(qs, rest, uid, name);
    forall j | 0 <= j < |qs| ensures Fine(site, qs[j]) { ReadFine(site, live, refs[j]); }
    forall q <- look.reqs
      ensures Fine(site, q)
    {
      var j :| 0 <= j < |look.reqs| && look.reqs[j] == q;
      assert q == qs[j] || q.host == Some(name);
    }
    WritesFine(site, live, refs, look.reqs);
  }

  lemma ReadFine(site: Site, live: seq<Group>, r: Ref)
    requires AllFine(site, live)
    ensures Fine(site, ReadRef(live, r))
  {
    if r.g < |live| && r.p < |GroupReqs(live[r.g])| { assert GroupReqs(live[r.g])[r.p] in GroupReqs(live[r.g]); }
  }

  lemma OnHostsAre(reqs: seq<Req>, name: string)
    ensures |OnHosts(reqs, name)| == |reqs| && forall q <- OnHosts(reqs, name) :: q.host == Some(name)
  {
  }

  lemma {:induction false} TryIndexedKept(site: Site, groups0: seq<Group>, st: PlanState, g: nat, n: nat, uid: nat)
    requires Kept(site, st) && g < |st.groups| && n <= |st.avail| && TryIndexed(groups0, st, g, n, uid).Done?
    ensures Kept(site, TryIndexed(groups0, st, g, n, uid).value)
    decreases |st.avail| - n
  {
    var node, reqs := st.avail[n], GroupReqs(st.groups[g]);
    var onNode := OnHosts(FreeOf(reqs), node.name);
    assert node in st.avail;
    match MatchFixed(onNode, node.res, uid) {
      case None => TryIndexedKept(site, groups0, st, g, n + 1, uid);
      case Some(rest) =>
        FixedAtHost(onNode, node.res, uid, node.name);
        OnHostsAre(FreeOf(reqs), node.name);
        FilledOnUsable(site, reqs, onNode, node.name);
        var refs := RefsFor(groups0, 0, node.name);
        if refs == [] {
          AcceptKept(site, st, g, n, Fill(reqs, onNode), rest);
        } else {
          LookedFine(site, groups0, st.groups, rest, node.name, uid);
          var st' := st.(groups := Looked(groups0, st.groups, node.name, rest, uid));
          AcceptKept(site, st', g, n, Fill(reqs, onNode), rest);
          if MatchPartly(ReadRefs(st.groups, refs), rest, uid).NoMatch? { TryIndexedKept(site, groups0, st', g, n + 1, uid); }
        }
    }
  }

  lemma SortedKept(site: Site, st: PlanState)
    requires Kept(site, st)
    ensures Kept(site, st.(avail := SortAvail(site, st.avail)))
  {
    FreeLists.SortedMembers(site, st.avail);
    forall b <- SortAvail(site, st.avail)
      ensures OnNode(b) && Usable(site, b.name)
    {
      var a :| a in st.avail && b == a.(res := SortRes(a.res));
      SortResMembers(a.res);
    }
  }

  lemma {:induction false} PlaceIndexedKept(site: Site, groups0: seq<Group>, st: PlanState, todo: seq<nat>, uid: nat)
    requires Kept(site, st) && InRange(todo, |st.groups|) && PlaceIndexed(site, groups0, st, todo, uid).Done?
    ensures Kept(site, PlaceIndexed(site, groups0, st, todo, uid).value)
    decreases |todo|
  {
    if todo != [] {
      var sorted := st.(avail := SortAvail(site, st.avail));
      SortedKept(site, st);
      TryIndexedKept(site, groups0, sorted, todo[0], 0, uid);
      PlaceIndexedKept(site, groups0, TryIndexed(groups0, sorted, todo[0], 0, uid).value, todo[1..], uid);
    }
  }

  lemma PlaceOnHostKept(site: Site, st: PlanState, g: nat, uid: nat)
    requires Kept(site, st) && g < |st.groups| && PlaceOnHost(st, g, uid).Done?
    ensures Kept(site, PlaceOnHost(st, g, uid).value)
  {
    var reqs := GroupReqs(st.groups[g]);
    var free := FreeOf(reqs);
    var n := NodeIndex(st.avail, free[0].host.value);
    var node := st.avail[n];
    assert node in st.avail;
    SortResMembers(node.res);
    MatchAtHost(free, SortRes(node.res), uid, node.name);
    var m := MatchPartly(free, SortRes(node.res), uid);
    OpenAreServed(reqs, m, node.name);
    FilledOnUsable(site, reqs, m.reqs, node.name);
    AcceptKept(site, st, g, n, Fill(reqs, m.reqs), m.rest);
  }

  lemma OpenAreServed(reqs: seq<Req>, m: Match, name: string)
    requires m.Matched? && LeftAtHost(FreeOf(reqs), m, name)
    ensures |m.reqs| == |FreeOf(reqs)| && forall p <- m.reqs :: p.host == Some(name)
  {
    FreeOfMembers(reqs);
    forall p <- m.reqs
      ensures p.host == Some(name)
    {
      var j :| 0 <= j < |m.reqs| && m.reqs[j] == p;
      assert FreeOf(reqs)[j] in FreeOf(reqs);
    }
  }

  lemma {:induction false} PlaceHostedKept(site: Site, st: PlanState, todo: seq<nat>, uid: nat)
    requires Kept(site, st) && InRange(todo, |st.groups|) && PlaceHosted(st, todo, uid).Done?
    ensures Kept(site, PlaceHosted(st, todo, uid).value)
    decreases |todo|
  {
    if todo != [] {
      PlaceOnHostKept(site, st, todo[0], uid);
      PlaceHostedKept(site, PlaceOnHost(st, todo[0], uid).value, todo[1..], uid);
    }
  }

  lemma {:induction false} TryAnywhereKept(site: Site, st: PlanState, g: nat, n: nat, uid: nat)
    requires Kept(site, st) && g < |st.groups| && n <= |st.avail| && TryAnywhere(st, g, n, uid).Done?
    ensures Kept(site, TryAnywhere(st, g, n, uid).value)
    decreases |st.avail| - n
  {
    var node, reqs := st.avail[n], GroupReqs(st.groups[g]);
    var moved := OnHosts(FreeOf(reqs), node.name);
    var m := MatchPartly(moved, node.res, uid);
    assert node in st.avail;
    if m.Matched? {
      OnHostsAre(FreeOf(reqs), node.name);
      MatchAtHost(moved, node.res, uid, node.name);
      MovedAreThere(moved, m, node.name);
      FilledOnUsable(site, reqs, m.reqs, node.name);
      AcceptKept(site, st, g, n, Fill(reqs, m.reqs), m.rest);
    } else {
      TryAnywhereKept(site, st, g, n + 1, uid);
    }
  }

  lemma MovedAreThere(moved: seq<Req>, m: Match, name: string)
    requires LeftAtHost(moved, m, name) && forall q <- moved :: q.host == Some(name)
    ensures |m.reqs| == |moved| && forall p <- m.reqs :: p.host == Some(name)
  {
    forall p <- m.reqs
      ensures p.host == Some(name)
    {
      var j :| 0 <= j < |m.reqs| && m.reqs[j] == p;
      assert moved[j] in moved;
    }
  }

  lemma {:induction false} TryWholeKept(site: Site, st: PlanState, g: nat, wants: seq<Req>, n: nat)
    requires Kept(site, st) && g < |st.groups| && n <= |st.avail| && TryWholeNode(site, st, g, wants, n).Done?
    ensures Kept(site, TryWholeNode(site, st, g, wants, n).value)
    decreases |st.avail| - n
  {
    var node := st.avail[n];
    assert node in st.avail;
    if IsWhole(site, node) && HasWanted(wants, node.res) {
      WholePick.AsRequestsAt(node.res);
      forall q <- AsRequests(node.res)
        ensures OnUsable(site, q)
      {
        var j :| 0 <= j < |node.res| && AsRequests(node.res)[j] == q;
        assert node.res[j] in node.res;
      }
      AcceptKept(site, st, g, n, AsRequests(node.res), []);
    } else {
      TryWholeKept(site, st, g, wants, n + 1);
    }
  }

  lemma {:induction false} PlaceAnywhereKept(site: Site, st: PlanState, todo: seq<nat>, uid: nat)
    requires Kept(site, st) && InRange(todo, |st.groups|) && PlaceAnywhere(site, st, todo, uid).Done?
    ensures Kept(site, PlaceAnywhere(site, st, todo, uid).value)
    decreases |todo|
  {
    if todo != [] {
      var g, sorted := todo[0], st.(avail := SortAvail(site, st.avail));
      SortedKept(site, st);
      if sorted.groups[g].Node? {
        TryWholeKept(site, sorted, g, sorted.groups[g].wants, 0);
        PlaceAnywhereKept(site, TryWholeNode(site, sorted, g, sorted.groups[g].wants, 0).value, todo[1..], uid);
      } else {
        TryAnywhereKept(site, sorted, g, 0, uid);
        PlaceAnywhereKept(site, TryAnywhere(sorted, g, 0, uid).value, todo[1..], uid);
      }
    }
  }

  // ------------------------------------------------------------ the result

  /** The fixed requests have passed the checks. */
  lemma CheckedAreFine(t: Table, site: Site, groups: seq<Group>)
    requires SafeTable(t) && CheckAllFixed(t, site, FixedAll(groups), 0).None?
    ensures AllFine(site, groups)
  {
    var fixed := FixedAll(groups);
    FixedAreKeyed(t, site, fixed);
    forall i | 0 <= i < |groups|
      ensures forall q <- GroupReqs(groups[i]) :: Fine(site, q)
    {
      FixedOfMembers(GroupReqs(groups[i]));
      FixedAllMembers(groups, i);
      forall q <- GroupReqs(groups[i]) | DOF(q) == 0
        ensures OnUsable(site, q)
      {
        var j :| 0 <= j < |fixed| && fixed[j] == q;
        NamedIsInPool(t, site, fixed, j);
      }
    }
  }

  lemma StartKept(t: Table, site: Site, groups: seq<Group>, uid: nat)
    requires SafeTable(t) && AllFine(site, groups) && Start(t, site, groups, uid).Done?
    ensures Kept(site, Start(t, site, groups, uid).value)
  {
    var gs, free := GrantsOf(FixedByDOF(groups)), FreePool(t, site);
    var pool, hosts := CommitAll(free, gs, uid).value, Hosts(site.order, site);
    var st := Start(t, site, groups, uid).value;
    CommitKeepsSafe(free, gs, uid);
    ListedExactly(site.order, site, pool);
    HostsMembers(site.order, site);
    forall a <- st.avail
      ensures OnNode(a) && Usable(site, a.name)
    {
      var i :| 0 <= i < |hosts| && st.avail[i] == a;
      assert hosts[i] in hosts;
    }
    forall i | 0 <= i < |groups| && st.chosen[i].Some?
      ensures forall q <- st.chosen[i].value :: OnUsable(site, q)
    {
      MaxDOFIsMax(GroupReqs(groups[i]));
    }
  }

  lemma PlaceKept(site: Site, groups: seq<Group>, st: PlanState, uid: nat)
    requires Kept(site, st) && |st.groups| == |groups| && Planner.Place(site, groups, st, uid).Done?
    ensures Kept(site, Planner.Place(site, groups, st, uid).value)
  {
    WithDOFBounds(groups, 1, 0);
    WithDOFBounds(groups, 2, 0);
    WithDOFBounds(groups, 3, 0);
    PlaceIndexedKept(site, groups, st, WithDOF(groups, 1, 0), uid);
    var st1 := PlaceIndexed(site, groups, st, WithDOF(groups, 1, 0), uid).value;
    PlaceHostedKept(site, st1, WithDOF(groups, 2, 0), uid);
    var st2 := PlaceHosted(st1, WithDOF(groups, 2, 0), uid).value;
    DropEmptyMembers(st2.avail);
    PlaceAnywhereKept(site, st2.(avail := DropEmpty(st2.avail)), WithDOF(groups, 3, 0), uid);
  }

  /** Whatever is asked, each pick of a plan that succeeds is on a node that is up, and
      among those the caller names if he names any. */
  lemma PlannedOnUsable(t: Table, site: Site, groups: seq<Group>, uid: nat)
    requires SafeTable(t) && Plan(t, site, groups, uid).Done?
    ensures forall qs <- Plan(t, site, groups, uid).value, q <- qs ::
              q.host.Some? && q.host.value !in site.unusable && (site.candidates == {} || q.host.value in site.candidates)
  {
    var pasted := PasteAll(groups);
    PlanParts(t, site, groups, uid);
    CheckedAreFine(t, site, pasted);
    StartKept(t, site, pasted, uid);
    PlaceKept(site, pasted, Start(t, site, pasted, uid).value, uid);
  }

  /** Nor is anything handed out on any other node. */
  ghost predicate HandedOutOn(out: seq<Item<Res>>, unusable: set<string>, candidates: set<string>) {
    forall rs <- AllLists(out), r <- rs :: r.attrs.key.host !in unusable && (candidates == {} || r.attrs.key.host in candidates)
  }

  lemma HandedOutOnUsable(t: Table, site: Site, items: seq<Item<Req>>, uid: nat, schedulers: seq<Scheduler>, answers: seq<bool>)
    requires |answers| == |schedulers| && SafeTable(t) && Perform(t, site, items, uid, schedulers, answers).0.Done?
    ensures HandedOutOn(Perform(t, site, items, uid, schedulers, answers).0.value, site.unusable, site.candidates)
  {
    var planned := Plan(t, site, ExpandAll(items), uid);
    PerformFollowsPlan(t, site, items, uid, schedulers, answers, planned);
    var plan := planned.value;
    var launched := Launched(schedulers, GpuHosts(Concat(plan)));
    AnswerIsRegrouped(t, items, plan, uid, schedulers, answers);
    var lists := CommitLists(t, plan, uid, launched).out;
    CommittedAsPicked(t, plan, uid, launched);
    RegroupInvertsExpand(items, lists);
    PlannedOnUsable(t, site, ExpandAll(items), uid);
    forall rs <- lists, r <- rs
      ensures r.attrs.key.host !in site.unusable && (site.candidates == {} || r.attrs.key.host in site.candidates)
    {
      var i :| 0 <= i < |lists| && lists[i] == rs;
      var j :| 0 <= j < |rs| && rs[j] == r;
      assert PickedAs(t, plan[i], lists[i]) && OnePicked(t, plan[i][j], lists[i][j]);
      assert plan[i] in plan && plan[i][j] in plan[i];
    }
  }
}
