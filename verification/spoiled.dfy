/** One index-only list beside one list of alike requests for a host: such a request is
    safe in every cluster exactly if the host list has at most one request. For two or
    more there is a cluster on which it is planned and its commit refused. */
module Spoiled {
  import opened Resources
  import opened Ledger
  import opened Matchers
  import opened MatchingSteps
  import opened Planner
  import opened PlanCommits
  import opened PlanTheorem
  import opened PlanSound
  import opened Sorting
  import opened Waiting
  import opened Spoiling
  import opened LastSlots
  import LookAhead

  // ---------------------------------------------------------- the request

  lemma AskedIsPasted(x: Mix)
    requires Good(x)
    ensures PasteAll(Asked(x)) == Asked(x) && OneHost(x.qs) && OneHost(x.ws)
  {
    NoHostFirst(x.qs);
    assert x.ws[0] in x.ws;
    assert FirstHost(x.ws) == Some(x.a);
    forall i | 0 <= i < |x.ws|
      ensures OnHost(x.ws[i], x.a) == x.ws[i]
    {
      assert x.ws[i] in x.ws;
    }
    assert OnHosts(x.ws, x.a) == x.ws;
    assert Paste(x.qs) == x.qs && Paste(x.ws) == x.ws;
  }

  lemma {:induction false} NoHostFirst(qs: seq<Req>)
    requires forall q <- qs :: q.host.None?
    ensures FirstHost(qs) == None
  {
    if qs != [] {
      assert qs[0] in qs;
      NoHostFirst(qs[1..]);
    }
  }

  lemma DOFIs(reqs: seq<Req>, d: nat)
    requires reqs != [] && forall q <- reqs :: DOF(q) == d
    ensures MaxDOF(reqs) == d
  {
    MaxDOFIsMax(reqs);
  }

  lemma AskedDegrees(x: Mix)
    requires Good(x)
    ensures GroupDOF(Asked(x)[0]) == 1 && GroupDOF(Asked(x)[1]) == 2
    ensures FixedOf(x.qs) == [] && FixedOf(x.ws) == [] && FreeOf(x.qs) == x.qs
    ensures FixedAll(Asked(x)) == [] && FixedByDOF(Asked(x)) == []
  {
    DOFIs(x.qs, 1);
    DOFIs(x.ws, 2);
    NoneFixed(x.qs);
    NoneFixed(x.ws);
    LookAhead.FixedAllPair(Asked(x)[0], Asked(x)[1]);
    LookAhead.FixedPairDOF(Asked(x)[0], Asked(x)[1], 0);
    LookAhead.FixedPairDOF(Asked(x)[0], Asked(x)[1], 1);
    LookAhead.FixedPairDOF(Asked(x)[0], Asked(x)[1], 2);
    LookAhead.FixedPairDOF(Asked(x)[0], Asked(x)[1], 3);
  }

  lemma AskedIsValid(x: Mix, t: Table, site: Site)
    requires Good(x)
    ensures Validate(t, site, Asked(x)) == None
  {
    AskedIsPasted(x);
    AskedDegrees(x);
  }

  function Begin(x: Mix, ra: seq<Res>, rb: seq<Res>): PlanState {
    PlanState(Asked(x), [NodeAvail(x.a, ra), NodeAvail(x.b, rb)], [None, None])
  }

  lemma StartIs(x: Mix, t: Table, site: Site, ra: seq<Res>, rb: seq<Res>, uid: nat)
    requires Good(x) && Cluster(t, site, ra, rb, x.a, x.b)
    ensures Start(t, site, Asked(x), uid) == Done(Begin(x, ra, rb))
  {
    TableIs(t, site, ra, rb, x.a, x.b);
    FreeIs(t, site, ra, rb, x.a, x.b);
    AskedDegrees(x);
    assert GrantsOf([]) == [] && CommitAll(t, [], uid) == Some(t);
    assert StartChosen(Asked(x)) == [None, None];
  }

  // ------------------------------------------------------------ who waits

  /** Places p, p + 1, ... of group g. */
  function Places(g: nat, p: nat, n: nat): seq<Ref> { seq(n, i requires 0 <= i < n => Ref(g, p + i)) }

  lemma {:induction false} AllWait(ws: seq<Req>, g: nat, p: nat, host: string)
    requires p <= |ws| && HostOnly(ws, host)
    ensures RefsIn(ws, g, p, host) == Places(g, p, |ws| - p)
    decreases |ws| - p
  {
    if p < |ws| {
      assert ws[p] in ws;
      AllWait(ws, g, p + 1, host);
      assert Places(g, p, |ws| - p) == [Ref(g, p)] + Places(g, p + 1, |ws| - p - 1);
    }
  }

  lemma WhoWaits(x: Mix)
    requires Good(x)
    ensures RefsFor(Asked(x), 0, x.a) == Places(1, 0, |x.ws|)
    ensures RefsFor(Asked(x), 0, x.b) == []
  {
    var groups := Asked(x);
    AskedDegrees(x);
    AllWait(x.ws, 1, 0, x.a);
    assert RefsFor(groups, 2, x.a) == [] && RefsFor(groups, 1, x.a) == Places(1, 0, |x.ws|) + [];
    assert RefsFor(groups, 0, x.a) == [] + RefsFor(groups, 1, x.a);
    NoneWait(x.ws, 1, 0, x.b);
    assert RefsFor(groups, 2, x.b) == [] && RefsFor(groups, 1, x.b) == [] + [];
    assert RefsFor(groups, 0, x.b) == [] + RefsFor(groups, 1, x.b);
  }

  lemma {:induction false} NoneWait(ws: seq<Req>, g: nat, p: nat, host: string)
    requires p <= |ws| && forall w <- ws :: w.host != Some(host)
    ensures RefsIn(ws, g, p, host) == []
    decreases |ws| - p
  {
    if p < |ws| {
      assert ws[p] in ws;
      NoneWait(ws, g, p + 1, host);
    }
  }

  lemma ReadAll(groups: seq<Group>, g: nat)
    requires g < |groups|
    ensures ReadRefs(groups, Places(g, 0, |GroupReqs(groups[g])|)) == GroupReqs(groups[g])
  {
  }

  /** Writing a whole list. */
  lemma {:induction false} WriteAll(groups: seq<Group>, g: nat, p: nat, qs: seq<Req>)
    requires g < |groups| && groups[g].Reqs? && |groups[g].reqs| == p + |qs|
    ensures WriteRefs(groups, Places(g, p, |qs|), qs) == groups[g := Reqs(groups[g].reqs[..p] + qs)]
    decreases |qs|
  {
    var reqs := groups[g].reqs;
    if qs == [] {
      assert reqs[..p] + qs == reqs;
      assert groups[g := Reqs(reqs)] == groups;
    } else {
      var reqs' := reqs[p := qs[0]];
      var groups' := groups[g := Reqs(reqs')];
      assert Places(g, p, |qs|)[0] == Ref(g, p) && Places(g, p, |qs|)[1..] == Places(g, p + 1, |qs| - 1);
      WriteAll(groups', g, p + 1, qs[1..]);
      assert reqs'[..p + 1] + qs[1..] == reqs[..p] + qs;
      assert groups'[g := Reqs(reqs[..p] + qs)] == groups[g := Reqs(reqs[..p] + qs)];
    }
  }

  // ---------------------------------------------------------------- the plan

  /** What the plan is made of, apart from how it is built: the slots for those who
      wait, and what the index-only list can have on each node. */
  ghost predicate Parts(x: Mix, slots: seq<Res>, na: seq<Res>, nb: seq<Res>) {
    && Good(x) && |slots| + 1 == |x.ws| && AnySlots(x.ws, slots)
    && (forall r <- slots :: r.Key().cls == ClassOf(x.ws[0]))
    && OwnSlots(OnHosts(x.qs, x.a), na) && OwnSlots(OnHosts(x.qs, x.b), nb)
    && (forall r <- slots, q <- OnHosts(x.qs, x.a) :: !CanAllocate(r, q))
    && Ascending(slots + na) && Ascending(nb)
  }

  /** The requests for the host after the look-ahead: all but the last resolved. */
  function Written(x: Mix, slots: seq<Res>): seq<Req>
    requires |slots| + 1 == |x.ws|
  {
    Resolved(x.ws, slots) + [x.ws[|slots|]]
  }

  function Live(x: Mix, slots: seq<Res>): seq<Group>
    requires |slots| + 1 == |x.ws|
  {
    [Reqs(x.qs), Reqs(Written(x, slots))]
  }

  lemma RejectedBy(groups0: seq<Group>, st: PlanState, g: nat, n: nat, moved: seq<Req>, refs: seq<Ref>, qs: seq<Req>,
                   rest: seq<Res>, written: seq<Req>, live: seq<Group>, uid: nat)
    requires Shaped(st) && g < |st.groups| && n < |st.avail| && |live| == |st.groups|
    requires OnHosts(FreeOf(GroupReqs(st.groups[g])), st.avail[n].name) == moved
    requires MatchFixed(moved, st.avail[n].res, uid) == Some(rest)
    requires RefsFor(groups0, 0, st.avail[n].name) == refs && refs != [] && ReadRefs(st.groups, refs) == qs
    requires MatchPartly(qs, rest, uid) == NoMatch(written) && WriteRefs(st.groups, refs, written) == live
    ensures TryIndexed(groups0, st, g, n, uid) == TryIndexed(groups0, st.(groups := live), g, n + 1, uid)
  {
    LookAhead.PassedOver(groups0, st, g, n, uid, rest, written);
  }

  lemma TakenBy(groups0: seq<Group>, st: PlanState, g: nat, n: nat, reqs: seq<Req>, moved: seq<Req>, rest: seq<Res>,
                st': PlanState, uid: nat)
    requires Shaped(st) && g < |st.groups| && n < |st.avail|
    requires GroupReqs(st.groups[g]) == reqs && FreeOf(reqs) == reqs && OnHosts(reqs, st.avail[n].name) == moved
    requires MatchFixed(moved, st.avail[n].res, uid) == Some(rest) && RefsFor(groups0, 0, st.avail[n].name) == []
    requires Fill(reqs, moved) == moved && Accept(st, g, n, moved, rest) == st'
    ensures TryIndexed(groups0, st, g, n, uid) == Done(st')
  {
    LookAhead.TakenAtOnce(groups0, st, g, n, uid, rest);
  }

  lemma LookWrites(x: Mix, slots: seq<Res>, na: seq<Res>, nb: seq<Res>)
    requires Parts(x, slots, na, nb)
    ensures ReadRefs(Asked(x), Places(1, 0, |x.ws|)) == x.ws
    ensures WriteRefs(Asked(x), Places(1, 0, |x.ws|), Written(x, slots)) == Live(x, slots)
  {
    ReadAll(Asked(x), 1);
    WriteAll(Asked(x), 1, 0, Written(x, slots));
    assert x.ws[..0] + Written(x, slots) == Written(x, slots);
    assert Asked(x)[1 := Reqs(Written(x, slots))] == Live(x, slots);
  }

  lemma FirstNodeServes(x: Mix, slots: seq<Res>, na: seq<Res>, nb: seq<Res>, uid: nat)
    requires Parts(x, slots, na, nb)
    ensures MatchFixed(OnHosts(x.qs, x.a), slots + na, uid) == Some(slots)
    ensures MatchPartly(x.ws, slots, uid) == NoMatch(Written(x, slots))
  {
    OwnSlotsTaken(OnHosts(x.qs, x.a), slots, na, uid);
    LookRunsOut(x.ws, slots, ClassOf(x.ws[0]), uid);
  }

  /** The first node has what the index-only list names, but then not enough for
      those who wait, and most of these are resolved all the same. */
  lemma FirstNodeRejects(x: Mix, slots: seq<Res>, na: seq<Res>, nb: seq<Res>, uid: nat)
    requires Parts(x, slots, na, nb)
    ensures var st := Begin(x, slots + na, nb);
            TryIndexed(Asked(x), st, 0, 0, uid) == TryIndexed(Asked(x), st.(groups := Live(x, slots)), 0, 1, uid)
  {
    var st := Begin(x, slots + na, nb);
    AskedDegrees(x);
    FirstNodeServes(x, slots, na, nb, uid);
    WhoWaits(x);
    LookWrites(x, slots, na, nb);
    RejectedBy(Asked(x), st, 0, 0, OnHosts(x.qs, x.a), Places(1, 0, |x.ws|), x.ws, slots, Written(x, slots), Live(x, slots), uid);
  }

  lemma {:induction false} FillAll(reqs: seq<Req>, picks: seq<Req>)
    requires |reqs| == |picks| && forall q <- reqs :: DOF(q) != 0
    ensures Fill(reqs, picks) == picks
  {
    if reqs != [] {
      assert reqs[0] in reqs;
      FillAll(reqs[1..], picks[1..]);
    }
  }

  function AfterIndexed(x: Mix, slots: seq<Res>, na: seq<Res>): PlanState
    requires |slots| + 1 == |x.ws|
  {
    PlanState(Live(x, slots), [NodeAvail(x.a, slots + na), NodeAvail(x.b, [])], [Some(OnHosts(x.qs, x.b)), None])
  }

  lemma SecondNodeServes(x: Mix, slots: seq<Res>, na: seq<Res>, nb: seq<Res>, uid: nat)
    requires Parts(x, slots, na, nb)
    ensures MatchFixed(OnHosts(x.qs, x.b), nb, uid) == Some([])
    ensures Fill(x.qs, OnHosts(x.qs, x.b)) == OnHosts(x.qs, x.b)
  {
    OwnSlotsTaken(OnHosts(x.qs, x.b), [], nb, uid);
    assert [] + nb == nb;
    FillAll(x.qs, OnHosts(x.qs, x.b));
  }

  lemma SecondAccepted(x: Mix, slots: seq<Res>, na: seq<Res>, nb: seq<Res>)
    requires |slots| + 1 == |x.ws|
    ensures Accept(Begin(x, slots + na, nb).(groups := Live(x, slots)), 0, 1, OnHosts(x.qs, x.b), []) == AfterIndexed(x, slots, na)
  {
  }

  lemma SecondNodeTakes(x: Mix, slots: seq<Res>, na: seq<Res>, nb: seq<Res>, uid: nat)
    requires Parts(x, slots, na, nb)
    ensures var st := Begin(x, slots + na, nb).(groups := Live(x, slots));
            TryIndexed(Asked(x), st, 0, 1, uid) == Done(AfterIndexed(x, slots, na))
  {
    var st := Begin(x, slots + na, nb).(groups := Live(x, slots));
    AskedDegrees(x);
    SecondNodeServes(x, slots, na, nb, uid);
    WhoWaits(x);
    SecondAccepted(x, slots, na, nb);
    TakenBy(Asked(x), st, 0, 1, x.qs, OnHosts(x.qs, x.b), [], AfterIndexed(x, slots, na), uid);
  }

  lemma {:induction false} LastIsFree(done: seq<Req>, w: Req, p: Req)
    requires (forall q <- done :: DOF(q) == 0) && DOF(w) != 0
    ensures FreeOf(done + [w]) == [w] && Fill(done + [w], [p]) == done + [p]
    decreases |done|
  {
    if done == [] {
      LookAhead.OneFree(w, p);
      assert done + [w] == [w] && done + [p] == [p];
    } else {
      assert done[0] in done;
      assert (done + [w])[1..] == done[1..] + [w] && (done + [w])[0] == done[0];
      LastIsFree(done[1..], w, p);
      assert [done[0]] + (done[1..] + [p]) == done + [p];
    }
  }

  /** The last request gets the resource the first one was resolved to. */
  function Twice(x: Mix, slots: seq<Res>): seq<Req>
    requires 0 < |slots| && |slots| + 1 == |x.ws|
  {
    Resolved(x.ws, slots) + [Resolve(x.ws[|slots|], slots[0].Key())]
  }

  lemma ResolvedAreFixed(x: Mix, slots: seq<Res>)
    requires Good(x) && |slots| + 1 == |x.ws|
    ensures forall q <- Resolved(x.ws, slots) :: DOF(q) == 0
  {
  }

  lemma HostedBy(st: PlanState, reqs: seq<Req>, w: Req, a: NodeAvail, p: Req, done: seq<Req>, uid: nat)
    requires Shaped(st) && |st.groups| == 2 && GroupReqs(st.groups[1]) == reqs && FreeOf(reqs) == [w] && w.host == Some(a.name)
    requires st.avail != [] && st.avail[0] == a && SortRes(a.res) == a.res
    requires MatchPartly([w], a.res, uid).Matched? && MatchPartly([w], a.res, uid).reqs == [p] && Fill(reqs, [p]) == done
    ensures PlaceOnHost(st, 1, uid).Done? && PlaceOnHost(st, 1, uid).value.chosen == st.chosen[1 := Some(done)]
  {
  }

  lemma LastTakesFirst(x: Mix, slots: seq<Res>, na: seq<Res>, nb: seq<Res>, uid: nat)
    requires Parts(x, slots, na, nb)
    ensures var w, p := x.ws[|slots|], Resolve(x.ws[|slots|], slots[0].Key());
            && MatchPartly([w], slots + na, uid).Matched? && MatchPartly([w], slots + na, uid).reqs == [p]
            && FreeOf(Written(x, slots)) == [w] && Fill(Written(x, slots), [p]) == Twice(x, slots)
  {
    var w := x.ws[|slots|];
    assert w in x.ws && slots[0] in slots;
    ResolvedAreFixed(x, slots);
    LastIsFree(Resolved(x.ws, slots), w, Resolve(w, slots[0].Key()));
    assert slots + na == [slots[0]] + (slots[1..] + na);
    FirstServes(slots[0], slots[1..] + na, w, uid);
  }

  lemma HostedTakesAgain(x: Mix, slots: seq<Res>, na: seq<Res>, nb: seq<Res>, uid: nat)
    requires Parts(x, slots, na, nb)
    ensures var o := PlaceOnHost(AfterIndexed(x, slots, na), 1, uid);
            o.Done? && o.value.chosen == [Some(OnHosts(x.qs, x.b)), Some(Twice(x, slots))]
  {
    var st, w := AfterIndexed(x, slots, na), x.ws[|slots|];
    assert w in x.ws;
    LastTakesFirst(x, slots, na, nb, uid);
    SortedAlready(slots + na);
    HostedBy(st, Written(x, slots), w, st.avail[0], Resolve(w, slots[0].Key()), Twice(x, slots), uid);
  }

  /** The plan in which one resource is used twice. */
  function DoublePlan(x: Mix, slots: seq<Res>): seq<seq<Req>>
    requires 0 < |slots| && |slots| + 1 == |x.ws|
  {
    [OnHosts(x.qs, x.b), Twice(x, slots)]
  }

  lemma AskedTodo(x: Mix)
    requires Good(x)
    ensures WithDOF(Asked(x), 1, 0) == [0] && WithDOF(Asked(x), 2, 0) == [1] && WithDOF(Asked(x), 3, 0) == []
  {
    AskedDegrees(x);
    LookAhead.Todo(Asked(x), 1);
    LookAhead.Todo(Asked(x), 2);
    LookAhead.Todo(Asked(x), 3);
  }

  lemma IndexedPlaced(x: Mix, site: Site, slots: seq<Res>, na: seq<Res>, nb: seq<Res>, uid: nat)
    requires Parts(x, slots, na, nb) && site.nodes == map[x.a := NodeInfo(0, 0), x.b := NodeInfo(1, 1)]
    ensures PlaceIndexed(site, Asked(x), Begin(x, slots + na, nb), [0], uid) == Done(AfterIndexed(x, slots, na))
  {
    NodesSorted(site, slots + na, nb, x.a, x.b);
    FirstNodeRejects(x, slots, na, nb, uid);
    SecondNodeTakes(x, slots, na, nb, uid);
    LookAhead.OneIndexed(site, Asked(x), Begin(x, slots + na, nb), 0, uid, AfterIndexed(x, slots, na));
  }

  lemma AllPlacedTwice(x: Mix, site: Site, slots: seq<Res>, na: seq<Res>, nb: seq<Res>, uid: nat)
    requires Parts(x, slots, na, nb) && site.nodes == map[x.a := NodeInfo(0, 0), x.b := NodeInfo(1, 1)]
    ensures var o := Place(site, Asked(x), Begin(x, slots + na, nb), uid);
            o.Done? && Chosen(o.value.chosen) == DoublePlan(x, slots)
  {
    AskedTodo(x);
    IndexedPlaced(x, site, slots, na, nb, uid);
    HostedTakesAgain(x, slots, na, nb, uid);
    var st := AfterIndexed(x, slots, na);
    LookAhead.OneHosted(st, 1, uid);
    var st2 := PlaceOnHost(st, 1, uid).value;
    LookAhead.PlacedIs(site, Asked(x), Begin(x, slots + na, nb), st, st2, uid);
    assert Chosen(st2.chosen) == DoublePlan(x, slots);
  }

  lemma DoublePlanned(x: Mix, t: Table, site: Site, slots: seq<Res>, na: seq<Res>, nb: seq<Res>, uid: nat)
    requires Parts(x, slots, na, nb) && Cluster(t, site, slots + na, nb, x.a, x.b)
    ensures Plan(t, site, Asked(x), uid) == Done(DoublePlan(x, slots))
  {
    AskedIsPasted(x);
    AskedIsValid(x, t, site);
    StartIs(x, t, site, slots + na, nb, uid);
    AllPlacedTwice(x, site, slots, na, nb, uid);
  }

  // -------------------------------------------------------------- the commit

  lemma {:induction false} OnTwo(gs: seq<Grant>, i: nat, j: nat)
    requires i < j < |gs| && gs[i].key == gs[j].key
    ensures |On(gs, gs[i].key)| >= 2 && gs[i].req in On(gs, gs[i].key)
  {
    if i == 0 {
      assert gs[1..][j - 1] == gs[j];
      OnMember(gs[1..], gs[j]);
    } else {
      OnTwo(gs[1..], i - 1, j - 1);
    }
  }

  /** A last slot is not given twice. */
  lemma LastSlotOnce(t: Table, gs: seq<Grant>, i: nat, j: nat, uid: nat)
    requires i < j < |gs| && gs[i].key == gs[j].key && gs[i].key in t
    requires Safe(t[gs[i].key]) && LastSlot(t[gs[i].key], gs[i].req.shared)
    ensures CommitAll(t, gs, uid).None?
  {
    var k := gs[i].key;
    OnTwo(gs, i, j);
    CommitByKey(t, gs, uid);
    ReplayIffFits(t[k], On(gs, k), uid);
  }

  lemma {:induction false} GrantsAt(qs: seq<Req>)
    requires forall q <- qs :: Keyed(q)
    ensures |GrantsOf(qs)| == |qs| && forall i | 0 <= i < |qs| :: GrantsOf(qs)[i] == Grant(KeyOf(qs[i]), qs[i])
  {
    if qs != [] {
      assert qs[0] in qs;
      GrantsAt(qs[1..]);
    }
  }

  lemma ConcatTwo<T>(a: seq<T>, b: seq<T>)
    ensures Concat([a, b]) == a + b
  {
    assert [a, b][1..] == [b] && [b][1..] == [];
    assert Concat([b]) == b + Concat([]) == b;
  }

  lemma DoubleIsRefused(x: Mix, t: Table, slots: seq<Res>, uid: nat)
    requires Good(x) && 0 < |slots| && |slots| + 1 == |x.ws| && AnySlots(x.ws, slots)
    requires slots[0].Key() in t && t[slots[0].Key()] == slots[0] && Safe(slots[0])
    requires slots[0].Key().cls == ClassOf(x.ws[0])
    ensures !CanCommit(t, DoublePlan(x, slots), uid)
  {
    var moved, twice := OnHosts(x.qs, x.b), Twice(x, slots);
    var qs, i := moved + twice, |moved|;
    ConcatTwo(moved, twice);
    if forall q <- qs :: Keyed(q) {
      GrantsAt(qs);
      var gs, w, v := GrantsOf(qs), x.ws[0], x.ws[|slots|];
      assert w in x.ws && v in x.ws && Alike(w, v) && slots[0] in slots;
      assert qs[i] == Resolve(w, slots[0].Key()) && qs[i + |slots|] == Resolve(v, slots[0].Key());
      LastSlotOnce(t, gs, i, i + |slots|, uid);
    }
  }

  /** For every such request there is a cluster on which it is planned and its commit
      refused. */
  lemma SpoiledSomewhere(x: Mix, uid: nat) returns (t: Table, site: Site)
    requires Good(x)
    ensures SafeTable(t) && NoDuplicates(site.order)
    ensures Plan(t, site, Asked(x), uid).Done? && !CanCommit(t, Plan(t, site, Asked(x), uid).value, uid)
  {
    var slots, na, nb := Slots(x), Named(x, x.a, |x.ws|), OnB(x);
    t, site := TableOf(OnA(x) + nb), Site(Keys(OnA(x) + nb), map[x.a := NodeInfo(0, 0), x.b := NodeInfo(1, 1)], map[], {}, {});
    AllFree(x);
    assert Cluster(t, site, OnA(x), nb, x.a, x.b);
    TableIs(t, site, OnA(x), nb, x.a, x.b);
    PartsAre(x);
    DoublePlanned(x, t, site, slots, na, nb, uid);
    assert slots[0] == (OnA(x) + nb)[0];
    assert slots[0] in slots && slots[0] in OnA(x) + nb && slots[0] in OnA(x);
    DoubleIsRefused(x, t, slots, uid);
  }

  lemma PartsAre(x: Mix)
    requires Good(x)
    ensures Parts(x, Slots(x), Named(x, x.a, |x.ws|), OnB(x))
  {
    SlotsFit(x);
    NamedFit(x, x.a, |x.ws|);
    NamedFit(x, x.b, 0);
    SlotsDontServe(x);
  }

  // ------------------------------------------------------------- the result

  /** Whatever the cluster, if the request is planned the plan can be committed. */
  ghost predicate SafeEverywhere(groups: seq<Group>) {
    forall t: Table, site: Site, uid: nat | SafeTable(t) && NoDuplicates(site.order) && Plan(t, site, groups, uid).Done? ::
      CanCommit(t, Plan(t, site, groups, uid).value, uid)
  }

  /** One index-only list beside one list of alike requests for a host is safe in every
      cluster exactly if the request cannot be spoiled, that is, if the list for the
      host has at most one request. */
  lemma SafeEverywhereExactly(qs: seq<Req>, ws: seq<Req>, host: string)
    requires IndexOnly(qs) && HostOnly(ws, host) && AllAlike(ws)
    ensures var groups := [Reqs(qs), Reqs(ws)];
            && (SafeEverywhere(groups) <==> !Spoilable(PasteAll(groups)))
            && (Spoilable(PasteAll(groups)) <==> |ws| >= 2)
  {
    if |ws| >= 2 {
      var x := Mix(qs, ws, host, host + "'", 0);
      var t, site := SpoiledSomewhere(x, 0);
      CanBeSpoiled(x);
    } else {
      CannotBeSpoiled(qs, ws);
      UnspoiledIsSafe([Reqs(qs), Reqs(ws)]);
    }
  }

  lemma UnspoiledIsSafe(groups: seq<Group>)
    requires !Spoilable(PasteAll(groups)) && forall g <- groups :: g.Reqs?
    ensures SafeEverywhere(groups)
  {
    forall t: Table, site: Site, uid: nat | SafeTable(t) && NoDuplicates(site.order) && Plan(t, site, groups, uid).Done?
      ensures CanCommit(t, Plan(t, site, groups, uid).value, uid)
    {
      PlanIsSound(t, site, groups, uid);
    }
  }

  lemma CanBeSpoiled(x: Mix)
    requires Good(x)
    ensures Spoilable(PasteAll(Asked(x)))
  {
    AskedIsPasted(x);
    AskedDegrees(x);
    WhoWaits(x);
    var refs := RefsFor(Asked(x), 0, x.a);
    assert Asked(x)[0] in Asked(x) && 1 <= 1 < |refs| && refs[1].g == refs[0].g;
  }

  lemma CannotBeSpoiled(qs: seq<Req>, ws: seq<Req>)
    requires IndexOnly(qs) && |ws| < 2
    ensures !Spoilable(PasteAll([Reqs(qs), Reqs(ws)]))
  {
    var groups := PasteAll([Reqs(qs), Reqs(ws)]);
    NoHostFirst(qs);
    DOFIs(qs, 1);
    SpoilableExactly(groups);
    assert groups[0] == Reqs(qs) && |GroupReqs(groups[1])| < 2;
  }
}
