/** The main results about planning: a plan can be committed, and it answers the
    request list by list. */
module PlanSound {
  import opened Resources
  import opened Ledger
  import opened Matchers
  import opened MatchingSteps
  import opened Planner
  import opened PlanCommits
  import opened Waiting
  import opened PlanTheorem

  // ---------------------------------------------------------------- pasting

  lemma {:induction false} FirstHostIsGiven(reqs: seq<Req>)
    ensures FirstHost(reqs).Some? <==> exists q <- reqs :: q.host.Some?
  {
    if reqs != [] {
      FirstHostIsGiven(reqs[1..]);
      assert reqs == [reqs[0]] + reqs[1..];
    }
  }

  lemma PasteIsUniform(reqs: seq<Req>)
    requires WellHosted(reqs)
    ensures Uniform(Paste(reqs))
  {
    FirstHostIsGiven(reqs);
    if OneHost(reqs) {
      var p := Paste(reqs);
      forall i, j | 0 <= i < |p| && 0 <= j < |p|
        ensures p[i].host == p[j].host
      {
        if FirstHost(reqs).None? { assert reqs[i] in reqs && reqs[j] in reqs; }
      }
    }
  }

  /** A uniform list whose freest request has no host gives no host at all. */
  lemma FreeHostIsHostless(reqs: seq<Req>)
    requires Uniform(reqs) && (MaxDOF(reqs) == 1 || MaxDOF(reqs) == 3)
    ensures Hostless(reqs)
  {
    MaxDOFIsMax(reqs);
    var f :| f in reqs && DOF(f) == MaxDOF(reqs);
    var i :| 0 <= i < |reqs| && reqs[i] == f;
    forall q <- reqs
      ensures q.host.None?
    {
      var j :| 0 <= j < |reqs| && reqs[j] == q;
      assert reqs[j].host == reqs[i].host;
    }
  }

  // ------------------------------------------------------------- validation

  lemma {:induction false} ChecksReach(t: Table, site: Site, fixed: seq<Req>, n: nat, i: nat)
    requires n <= i <= |fixed| && CheckAllFixed(t, site, fixed, n).None?
    ensures CheckAllFixed(t, site, fixed, i).None?
    decreases i - n
  {
    if n < i { ChecksReach(t, site, fixed, n + 1, i); }
  }

  lemma {:induction false} CheckedIsKeyed(t: Table, site: Site, fixed: seq<Req>, i: nat)
    requires i < |fixed| && CheckAllFixed(t, site, fixed, 0).None?
    ensures Keyed(fixed[i])
  {
    ChecksReach(t, site, fixed, 0, i);
    if j :| 0 <= j < i && SameTarget(fixed[j], fixed[i]) {
      CheckedIsKeyed(t, site, fixed, j);
    }
  }

  lemma {:induction false} FixedAllMembers(groups: seq<Group>, i: nat)
    requires i < |groups|
    ensures forall q <- FixedOf(GroupReqs(groups[i])) :: q in FixedAll(groups)
  {
    if i > 0 {
      FixedAllMembers(groups[1..], i - 1);
    }
  }

  lemma ValidIsPasted(t: Table, site: Site, groups: seq<Group>)
    requires Validate(t, site, groups).None?
    ensures forall i | 0 <= i < |groups| :: Pasted(PasteAll(groups)[i])
  {
    var pasted := PasteAll(groups);
    var fixed := FixedAll(pasted);
    forall i | 0 <= i < |groups|
      ensures Pasted(pasted[i])
    {
      assert groups[i] in groups;
      if groups[i].Reqs? { PasteIsUniform(groups[i].reqs); }
      FixedAllMembers(pasted, i);
      FixedOfFixed(GroupReqs(pasted[i]));
      forall q <- GroupReqs(pasted[i]) | DOF(q) == 0
        ensures Keyed(q)
      {
        var j :| 0 <= j < |fixed| && fixed[j] == q;
        CheckedIsKeyed(t, site, fixed, j);
      }
    }
  }

  // ----------------------------------------------------------- availability

  ghost predicate Part(sub: Table, t: Table) { forall k <- sub :: k in t && sub[k] == t[k] }

  lemma {:induction false} CommitOnPart(sub: Table, t: Table, gs: seq<Grant>, uid: nat)
    requires Part(sub, t) && CommitAll(sub, gs, uid).Some?
    ensures CommitAll(t, gs, uid).Some?
    ensures Part(CommitAll(sub, gs, uid).value, CommitAll(t, gs, uid).value)
    decreases |gs|
  {
    if gs != [] {
      var k := gs[0].key;
      CommitOnPart(sub[k := Grow(sub[k], gs[0].req, uid)], t[k := Grow(t[k], gs[0].req, uid)], gs[1..], uid);
    }
  }

  ghost predicate NoDuplicates(order: seq<Key>) { forall i, j | 0 <= i < j < |order| :: order[i] != order[j] }

  lemma {:induction false} FreeOnOk(order: seq<Key>, pool: Table, host: string)
    requires NoDuplicates(order) && SafeTable(pool)
    ensures forall r <- FreeOn(order, pool, host) ::
              r.Key() in order && r.Key() in pool && pool[r.Key()] == r && IsFree(r) && r.Key().host == host
    ensures Distinct(FreeOn(order, pool, host))
  {
    if order != [] {
      var rest := order[1..];
      assert order == [order[0]] + rest;
      assert forall i | 0 <= i < |rest| :: rest[i] == order[i + 1];
      FreeOnOk(rest, pool, host);
      assert order[0] !in rest;
    }
  }

  lemma {:induction false} HostsDistinct(order: seq<Key>, site: Site)
    ensures forall i, j | 0 <= i < j < |Hosts(order, site)| :: Hosts(order, site)[i] != Hosts(order, site)[j]
  {
    if order != [] { HostsDistinct(order[..|order| - 1], site); }
  }

  lemma StartAvailOk(t: Table, site: Site, gs: seq<Grant>, uid: nat)
    requires SafeTable(t) && NoDuplicates(site.order)
    requires CommitAll(FreePool(t, site), gs, uid).Some?
    ensures CommitAll(t, gs, uid).Some?
    ensures AvailOk(AvailOn(site.order, CommitAll(FreePool(t, site), gs, uid).value, Hosts(site.order, site)),
                    CommitAll(t, gs, uid).value)
  {
    var free := FreePool(t, site);
    CommitOnPart(free, t, gs, uid);
    CommitKeepsSafe(free, gs, uid);
    var pool, hosts := CommitAll(free, gs, uid).value, Hosts(site.order, site);
    HostsDistinct(site.order, site);
    var avail := AvailOn(site.order, pool, hosts);
    forall a <- avail
      ensures Backed(a.res, CommitAll(t, gs, uid).value) && OnNode(a)
    {
      var i :| 0 <= i < |avail| && avail[i] == a;
      FreeOnOk(site.order, pool, hosts[i]);
    }
  }

  // --------------------------------------------------------------- accounts

  /** Of the groups with degree d or not: how often q is fixed in them. */
  lemma {:induction false} FixedCounts(groups: seq<Group>, q: Req)
    ensures multiset(FixedAll(groups))[q]
         == multiset(FixedWithDOF(groups, 0))[q] + multiset(FixedWithDOF(groups, 1))[q]
            + multiset(FixedWithDOF(groups, 2))[q] + multiset(FixedWithDOF(groups, 3))[q]
  {
    if groups != [] {
      FixedCounts(groups[1..], q);
      MaxDOFIsMax(GroupReqs(groups[0]));
      assert GroupDOF(groups[0]) <= 3;
    }
  }

  lemma FixedPermutes(groups: seq<Group>)
    ensures multiset(FixedByDOF(groups)) == multiset(FixedAll(groups))
  {
    forall q: Req
      ensures multiset(FixedByDOF(groups))[q] == multiset(FixedAll(groups))[q]
    {
      FixedCounts(groups, q);
    }
  }

  lemma {:induction false} AllFixed(reqs: seq<Req>)
    requires forall q <- reqs :: DOF(q) == 0
    ensures FixedOf(reqs) == reqs
  {
    if reqs != [] { AllFixed(reqs[1..]); }
  }

  lemma {:induction false} TallyOfFixed(groups: seq<Group>, held: seq<seq<Grant>>)
    requires |held| == |groups|
    requires forall i | 0 <= i < |groups| :: held[i] == GrantsOf(FixedOf(GroupReqs(groups[i])))
    ensures Concat(held) == GrantsOf(FixedAll(groups))
  {
    if groups != [] {
      TallyOfFixed(groups[1..], held[1..]);
      GrantsOfAppend(FixedOf(GroupReqs(groups[0])), FixedAll(groups[1..]));
    }
  }

  lemma StartHeld(groups: seq<Group>, st: PlanState)
    requires st.groups == groups && st.chosen == StartChosen(groups)
    ensures forall i | 0 <= i < |groups| :: HeldAll(st)[i] == GrantsOf(FixedOf(GroupReqs(groups[i])))
  {
    forall i | 0 <= i < |groups| && GroupDOF(groups[i]) == 0
      ensures FixedOf(GroupReqs(groups[i])) == GroupReqs(groups[i])
    {
      MaxDOFIsMax(GroupReqs(groups[i]));
      AllFixed(GroupReqs(groups[i]));
    }
  }

  /** A plan starts sound: the fixed requests commit and are accounted for. */
  lemma StartGoing(t: Table, site: Site, groups: seq<Group>, uid: nat) returns (granted: seq<Grant>)
    requires SafeTable(t) && NoDuplicates(site.order) && (forall i | 0 <= i < |groups| :: Pasted(groups[i]))
    requires Start(t, site, groups, uid).Done?
    ensures Going(t, groups, Start(t, site, groups, uid).value, granted, uid)
  {
    granted := GrantsOf(FixedByDOF(groups));
    var st := Start(t, site, groups, uid).value;
    StartAvailOk(t, site, granted, uid);
    StartHeld(groups, st);
    TallyOfFixed(groups, HeldAll(st));
    FixedPermutes(groups);
    GrantsPermute(FixedByDOF(groups), FixedAll(groups));
    forall i | 0 <= i < |groups| && st.chosen[i].Some?
      ensures AnsweredGroup(groups[i], st.chosen[i].value)
    {
      MaxDOFIsMax(GroupReqs(groups[i]));
      assert Pasted(groups[i]);
    }
  }

  // ------------------------------------------------------------- the result

  /** The groups with at most d degrees of freedom, and only they, are answered. */
  ghost predicate Through(groups: seq<Group>, st: PlanState, d: nat) {
    && Shaped(st) && |st.groups| == |groups|
    && forall i | 0 <= i < |groups| :: st.chosen[i].Some? <==> GroupDOF(groups[i]) <= d
  }

  lemma TodoPending(groups: seq<Group>, st: PlanState, d: nat)
    requires d > 0 && Through(groups, st, d - 1)
    ensures Pending(st, WithDOF(groups, d, 0))
  {
    WithDOFBounds(groups, d, 0);
  }

  lemma ThroughNext(groups: seq<Group>, st: PlanState, st': PlanState, d: nat)
    requires d > 0 && Through(groups, st, d - 1) && AllPlaced(st, st', WithDOF(groups, d, 0))
    ensures Through(groups, st', d)
  {
    WithDOFBounds(groups, d, 0);
    var todo := WithDOF(groups, d, 0);
    forall i | 0 <= i < |groups|
      ensures st'.chosen[i].Some? <==> GroupDOF(groups[i]) <= d
    {
      if i in todo {
        var j :| 0 <= j < |todo| && todo[j] == i;
        assert st'.chosen[todo[j]].Some?;
      } else {
        assert GroupDOF(groups[i]) != d && st'.chosen[i] == st.chosen[i];
      }
    }
  }

  lemma HostlessTodo(groups: seq<Group>, d: nat)
    requires (d == 1 || d == 3) && forall i | 0 <= i < |groups| :: Pasted(groups[i])
    ensures var todo := WithDOF(groups, d, 0);
            forall i | 0 <= i < |todo| ::
              todo[i] < |groups| && (groups[todo[i]].Reqs? ==> Hostless(groups[todo[i]].reqs)) && (d == 1 ==> groups[todo[i]].Reqs?)
  {
    WithDOFBounds(groups, d, 0);
    var todo := WithDOF(groups, d, 0);
    forall i | 0 <= i < |todo| && groups[todo[i]].Reqs?
      ensures Hostless(groups[todo[i]].reqs)
    {
      assert Pasted(groups[todo[i]]);
      FreeHostIsHostless(groups[todo[i]].reqs);
    }
  }

  /** With index-only lists, the first list that waits for a host has one open request. */
  lemma IndexedUncrowded(groups: seq<Group>)
    requires !Spoilable(groups)
    ensures var todo := WithDOF(groups, 1, 0);
            && (todo != [] ==> Uncrowded(groups))
            && forall i | 0 <= i < |groups| && GroupDOF(groups[i]) == 2 :: i !in todo
  {
    var todo := WithDOF(groups, 1, 0);
    WithDOFBounds(groups, 1, 0);
    if todo != [] { assert groups[todo[0]] in groups; }
  }

  lemma IndexedPhase(t: Table, site: Site, groups: seq<Group>, st: PlanState, granted: seq<Grant>, uid: nat)
    returns (granted': seq<Grant>)
    requires !Spoilable(groups) && Going(t, groups, st, granted, uid) && Through(groups, st, 0)
    requires InRange(WithDOF(groups, 1, 0), |st.groups|) && PlaceIndexed(site, groups, st, WithDOF(groups, 1, 0), uid).Done?
    requires !Drained(groups, PlaceIndexed(site, groups, st, WithDOF(groups, 1, 0), uid).value.groups)
    ensures var st' := PlaceIndexed(site, groups, st, WithDOF(groups, 1, 0), uid).value;
            Going(t, groups, st', granted', uid) && Through(groups, st', 1)
  {
    var todo := WithDOF(groups, 1, 0);
    TodoPending(groups, st, 1);
    HostlessTodo(groups, 1);
    IndexedUncrowded(groups);
    granted' := PlaceIndexedOk(t, site, groups, st, todo, granted, uid);
    ThroughNext(groups, st, PlaceIndexed(site, groups, st, todo, uid).value, 1);
  }

  lemma NotDrained(groups: seq<Group>, st: PlanState, uid: nat)
    requires Shaped(st) && |st.groups| == |groups| && InRange(WithDOF(groups, 2, 0), |groups|)
    requires PlaceHosted(st, WithDOF(groups, 2, 0), uid).Done?
    ensures !Drained(groups, st.groups)
  {
    WithDOFBounds(groups, 2, 0);
    forall i | DrainedAt(groups, st.groups, i)
      ensures false
    {
      DrainedFails(groups, st, WithDOF(groups, 2, 0), i, uid);
    }
  }

  lemma HostedPhase(t: Table, groups: seq<Group>, st: PlanState, granted: seq<Grant>, uid: nat)
    returns (granted': seq<Grant>)
    requires Going(t, groups, st, granted, uid) && Through(groups, st, 1)
    requires InRange(WithDOF(groups, 2, 0), |st.groups|) && PlaceHosted(st, WithDOF(groups, 2, 0), uid).Done?
    ensures var st' := PlaceHosted(st, WithDOF(groups, 2, 0), uid).value;
            Going(t, groups, st', granted', uid) && Through(groups, st', 2)
  {
    TodoPending(groups, st, 2);
    WithDOFBounds(groups, 2, 0);
    granted' := PlaceHostedOk(t, groups, st, WithDOF(groups, 2, 0), granted, uid);
    ThroughNext(groups, st, PlaceHosted(st, WithDOF(groups, 2, 0), uid).value, 2);
  }

  lemma AnywherePhase(t: Table, site: Site, groups: seq<Group>, st: PlanState, granted: seq<Grant>, uid: nat)
    returns (granted': seq<Grant>)
    requires SafeTable(t) && Going(t, groups, st, granted, uid) && Through(groups, st, 2)
    requires InRange(WithDOF(groups, 3, 0), |st.groups|) && PlaceAnywhere(site, st, WithDOF(groups, 3, 0), uid).Done?
    requires NodesFit(t, groups, PlaceAnywhere(site, st, WithDOF(groups, 3, 0), uid).value.chosen)
    ensures var st' := PlaceAnywhere(site, st, WithDOF(groups, 3, 0), uid).value;
            Going(t, groups, st', granted', uid) && Through(groups, st', 3)
  {
    TodoPending(groups, st, 3);
    HostlessTodo(groups, 3);
    WithDOFBounds(groups, 3, 0);
    granted' := PlaceAnywhereOk(t, site, groups, st, WithDOF(groups, 3, 0), granted, uid);
    ThroughNext(groups, st, PlaceAnywhere(site, st, WithDOF(groups, 3, 0), uid).value, 3);
  }

  lemma DroppedGoing(t: Table, groups: seq<Group>, st: PlanState, granted: seq<Grant>, uid: nat)
    requires Going(t, groups, st, granted, uid)
    ensures Going(t, groups, st.(avail := DropEmpty(st.avail)), granted, uid)
  {
    DropEmptyOk(st.avail, CommitAll(t, granted, uid).value);
    assert HeldAll(st.(avail := DropEmpty(st.avail))) == HeldAll(st);
  }

  lemma AllThrough(groups: seq<Group>, st: PlanState)
    requires Through(groups, st, 3)
    ensures forall i | 0 <= i < |groups| :: st.chosen[i].Some?
  {
    forall i | 0 <= i < |groups| ensures st.chosen[i].Some? { MaxDOFIsMax(GroupReqs(groups[i])); }
  }

  lemma StartThrough(groups: seq<Group>, st: PlanState)
    requires st.groups == groups && st.chosen == StartChosen(groups)
    ensures Through(groups, st, 0)
  {
  }

  /** From a sound start to a sound end: all groups are answered. */
  lemma PlaceOk(t: Table, site: Site, groups: seq<Group>, st: PlanState, granted: seq<Grant>, uid: nat)
    returns (granted': seq<Grant>)
    requires SafeTable(t) && !Spoilable(groups)
    requires Going(t, groups, st, granted, uid) && st.groups == groups && st.chosen == StartChosen(groups)
    requires Place(site, groups, st, uid).Done? && NodesFit(t, groups, Place(site, groups, st, uid).value.chosen)
    ensures Going(t, groups, Place(site, groups, st, uid).value, granted', uid)
    ensures Through(groups, Place(site, groups, st, uid).value, 3)
  {
    WithDOFBounds(groups, 1, 0);
    WithDOFBounds(groups, 2, 0);
    WithDOFBounds(groups, 3, 0);
    StartThrough(groups, st);
    NotDrained(groups, PlaceIndexed(site, groups, st, WithDOF(groups, 1, 0), uid).value, uid);
    var granted1 := IndexedPhase(t, site, groups, st, granted, uid);
    var st1 := PlaceIndexed(site, groups, st, WithDOF(groups, 1, 0), uid).value;
    var granted2 := HostedPhase(t, groups, st1, granted1, uid);
    var st2 := PlaceHosted(st1, WithDOF(groups, 2, 0), uid).value;
    DroppedGoing(t, groups, st2, granted2, uid);
    granted' := AnywherePhase(t, site, groups, st2.(avail := DropEmpty(st2.avail)), granted2, uid);
  }

  lemma {:induction false} ConcatGrants(xs: seq<seq<Req>>, held: seq<seq<Grant>>)
    requires |held| == |xs| && forall i | 0 <= i < |xs| :: held[i] == GrantsOf(xs[i])
    ensures Concat(held) == GrantsOf(Concat(xs))
  {
    if xs != [] {
      ConcatGrants(xs[1..], held[1..]);
      GrantsOfAppend(xs[0], Concat(xs[1..]));
    }
  }

  lemma {:induction false} ConcatMembers<T>(xs: seq<seq<T>>, x: T)
    requires x in Concat(xs)
    ensures exists i | 0 <= i < |xs| :: x in xs[i]
  {
    if x !in xs[0] {
      ConcatMembers(xs[1..], x);
      var i :| 0 <= i < |xs[1..]| && x in xs[1..][i];
      assert x in xs[i + 1];
    }
  }

  /** What the commit relies on: every pick is resolved, and replaying all picks in
      request order on the table fails nowhere. */
  ghost predicate CanCommit(t: Table, plan: seq<seq<Req>>, uid: nat) {
    && (forall q <- Concat(plan) :: Keyed(q))
    && CommitAll(t, GrantsOf(Concat(plan)), uid).Some?
  }

  lemma SoundEnd(t: Table, groups: seq<Group>, st: PlanState, granted: seq<Grant>, uid: nat)
    requires SafeTable(t) && Going(t, groups, st, granted, uid) && Through(groups, st, 3)
    ensures CanCommit(t, Chosen(st.chosen), uid)
    ensures forall i | 0 <= i < |groups| :: AnsweredGroup(groups[i], Chosen(st.chosen)[i])
  {
    var plan := Chosen(st.chosen);
    AllThrough(groups, st);
    ConcatGrants(plan, HeldAll(st));
    CommitOrderIrrelevant(t, granted, GrantsOf(Concat(plan)), uid);
    AnsweredAreKeyed(groups, plan);
  }

  lemma AnsweredAreKeyed(groups: seq<Group>, plan: seq<seq<Req>>)
    requires |plan| == |groups| && forall i | 0 <= i < |groups| :: AnsweredGroup(groups[i], plan[i])
    ensures forall q <- Concat(plan) :: Keyed(q)
  {
    forall q <- Concat(plan)
      ensures Keyed(q)
    {
      ConcatMembers(plan, q);
      var i :| 0 <= i < |plan| && q in plan[i];
      assert AnsweredGroup(groups[i], plan[i]);
    }
  }

  lemma PlanParts(t: Table, site: Site, groups: seq<Group>, uid: nat)
    requires Plan(t, site, groups, uid).Done?
    ensures var pasted := PasteAll(groups);
            && Validate(t, site, groups).None? && Start(t, site, pasted, uid).Done?
            && Place(site, pasted, Start(t, site, pasted, uid).value, uid).Done?
            && Plan(t, site, groups, uid).value == Chosen(Place(site, pasted, Start(t, site, pasted, uid).value, uid).value.chosen)
  {
  }

  lemma NodesStayNodes(groups: seq<Group>)
    ensures forall i | 0 <= i < |groups| :: PasteAll(groups)[i].Node? == groups[i].Node?
  {
  }

  /** What planning leaves chosen, before it is read as a plan. */
  function Ending(t: Table, site: Site, groups: seq<Group>, uid: nat): seq<Option<seq<Req>>>
    requires Plan(t, site, groups, uid).Done?
  {
    Place(site, PasteAll(groups), Start(t, site, PasteAll(groups), uid).value, uid).value.chosen
  }

  /** The plan is sound if the picks for whole nodes match what they name. */
  lemma FittingPlanIsSound(t: Table, site: Site, groups: seq<Group>, uid: nat)
    requires SafeTable(t) && NoDuplicates(site.order) && !Spoilable(PasteAll(groups))
    requires Plan(t, site, groups, uid).Done? && NodesFit(t, PasteAll(groups), Ending(t, site, groups, uid))
    ensures var plan := Plan(t, site, groups, uid).value;
            && CanCommit(t, plan, uid)
            && |plan| == |groups|
            && forall i | 0 <= i < |groups| :: AnsweredGroup(PasteGroup(groups[i]), plan[i])
  {
    var pasted := PasteAll(groups);
    PlanParts(t, site, groups, uid);
    ValidIsPasted(t, site, groups);
    var st := Start(t, site, pasted, uid).value;
    var granted0 := StartGoing(t, site, pasted, uid);
    var granted := PlaceOk(t, site, pasted, st, granted0, uid);
    SoundEnd(t, pasted, Place(site, pasted, st, uid).value, granted, uid);
  }

  /** A plan that succeeds can be committed in request order, and answers every
      group of the request, unless index-only lists come with a host for which the first
      list that waits has two open requests. Whole nodes also need resources that match
      themselves. */
  lemma PlanIsSound(t: Table, site: Site, groups: seq<Group>, uid: nat)
    requires SafeTable(t) && NoDuplicates(site.order)
    requires !Spoilable(PasteAll(groups)) && ((exists g <- groups :: g.Node?) ==> SelfMatching(t))
    requires Plan(t, site, groups, uid).Done?
    ensures var plan := Plan(t, site, groups, uid).value;
            && CanCommit(t, plan, uid)
            && |plan| == |groups|
            && forall i | 0 <= i < |groups| :: AnsweredGroup(PasteGroup(groups[i]), plan[i])
  {
    NodesStayNodes(groups);
    if i :| 0 <= i < |groups| && groups[i].Node? { assert groups[i] in groups; }
    FittingPlanIsSound(t, site, groups, uid);
  }

  /** Each pick made for a whole node matches the resource it names. */
  ghost predicate NodePicksFit(t: Table, groups: seq<Group>, plan: seq<seq<Req>>) {
    |plan| == |groups| && forall i | 0 <= i < |groups| && groups[i].Node? :: forall q <- plan[i] :: Fit(t, q)
  }

  /** A plan that succeeds can be committed exactly if the picks made for whole nodes
      match the resources they name. Picks for lists always do. */
  lemma PlanCommitsExactly(t: Table, site: Site, groups: seq<Group>, uid: nat)
    requires SafeTable(t) && NoDuplicates(site.order) && !Spoilable(PasteAll(groups))
    requires Plan(t, site, groups, uid).Done?
    ensures var plan := Plan(t, site, groups, uid).value; CanCommit(t, plan, uid) <==> NodePicksFit(t, groups, plan)
  {
    var plan := Plan(t, site, groups, uid).value;
    NodesStayNodes(groups);
    if NodePicksFit(t, groups, plan) { FittingPlanIsSound(t, site, groups, uid); }
    if CanCommit(t, plan, uid) {
      forall i, q | 0 <= i < |groups| && groups[i].Node? && q in plan[i]
        ensures Fit(t, q)
      {
        InConcatOf(plan, i, q);
        CommittedFits(t, Concat(plan), uid, q);
      }
    }
  }

  lemma {:induction false} InConcatOf<T>(xs: seq<seq<T>>, i: nat, x: T)
    requires i < |xs| && x in xs[i]
    ensures x in Concat(xs)
  {
    if i > 0 { InConcatOf(xs[1..], i - 1, x); }
  }

  /** Whatever commits matches. */
  lemma CommittedFits(t: Table, qs: seq<Req>, uid: nat, q: Req)
    requires SafeTable(t) && (forall p <- qs :: Keyed(p)) && CommitAll(t, GrantsOf(qs), uid).Some? && q in qs
    ensures Fit(t, q)
  {
    var gs, k := GrantsOf(qs), KeyOf(q);
    GrantMember(qs, q);
    CommitByKey(t, gs, uid);
    assert Grant(k, q).key in t;
    OnMember(gs, Grant(k, q));
    ReplayIffFits(t[k], On(gs, k), uid);
  }

  lemma {:induction false} OnMember(gs: seq<Grant>, g: Grant)
    requires g in gs
    ensures g.req in On(gs, g.key)
  {
    if gs[0] != g { OnMember(gs[1..], g); }
  }
}
