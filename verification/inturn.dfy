/** What a request for several single resources gets: the fixed ones first, then those with
    an index, those with a host and the others, each list of them in order, and each of
    them the cheapest resource that is left when its turn comes. */
module InTurn {
  import opened Resources
  import opened Ledger
  import opened Matchers
  import opened MatchingSteps
  import opened Planner
  import opened PlanCommits
  import opened PlanTheorem
  import opened PlanSound
  import opened Waiting
  import opened Suits
  import opened Placing
  import opened Checks
  import opened SingleRequests
  import opened Sorting
  import opened Lightest
  import Spoiling
  import WholePick

  /** Every item of the request is one resource of a known class. */
  ghost predicate AllSingles(groups: seq<Group>) {
    forall i | 0 <= i < |groups| :: groups[i].Reqs? && |groups[i].reqs| == 1 && groups[i].reqs[0].cls.Some?
  }

  function Wish(groups: seq<Group>, i: nat): Req
    requires i < |groups| && groups[i].Reqs? && |groups[i].reqs| == 1
  {
    groups[i].reqs[0]
  }

  /** The hosts that requests with a host but no index name. */
  ghost function Awaited(groups: seq<Group>): set<string>
    requires AllSingles(groups)
  {
    set i | 0 <= i < |groups| && DOF(Wish(groups, i)) == 2 :: Wish(groups, i).host.value
  }

  /** The hosts a request keeps off: with an index only, those that others wait for. */
  ghost function Barred(groups: seq<Group>, q: Req): set<string>
    requires AllSingles(groups)
  {
    if q.idx.Some? && q.host.None? then Awaited(groups) else {}
  }

  /** A request is given, as x, the cheapest resource there is. */
  ghost predicate Turn(t: Table, t': Table, site: Site, barred: set<string>, q: Req, x: seq<Req>, uid: nat) {
    && |x| == 1 && Keyed(x[0]) && KeyOf(x[0]) in t
    && x[0] == q.(idx := x[0].idx, host := x[0].host)
    && Cheapest(t, site, barred, q, KeyOf(x[0]))
    && t' == t[KeyOf(x[0]) := Grow(t[KeyOf(x[0])], x[0], uid)]
  }

  // ----------------------------------------------------------- one turn

  /** Group g has its turn, and nothing else changes. */
  ghost predicate Taken(t: Table, t': Table, site: Site, barred: set<string>, q: Req, st: PlanState, st': PlanState, g: nat, uid: nat) {
    && Shaped(st) && Shaped(st') && |st'.groups| == |st.groups| && g < |st.groups|
    && st'.chosen[g].Some? && Turn(t, t', site, barred, q, st'.chosen[g].value, uid)
    && Complete(t', site) && InStep(t', site, st'.avail)
    && forall i | 0 <= i < |st.groups| && i != g :: st'.chosen[i] == st.chosen[i] && st'.groups[i] == st.groups[i]
  }

  lemma OnlyGrant(picks: seq<Grant>, p: Req)
    requires Keyed(p) && multiset(picks) == multiset(GrantsOf([p]))
    ensures picks == [Grant(KeyOf(p), p)] == GrantsOf([p])
  {
    var g := Grant(KeyOf(p), p);
    assert [p][1..] == [] && GrantsOf([p]) == [g] + GrantsOf([]);
    assert |picks| == |multiset(picks)| == |multiset([g])| == 1;
    assert picks[0] in multiset(picks);
  }

  lemma OneCommit(t: Table, p: Req, uid: nat)
    requires Keyed(p) && CommitAll(t, [Grant(KeyOf(p), p)], uid).Some?
    ensures KeyOf(p) in t && CanAllocate(t[KeyOf(p)], p)
    ensures CommitAll(t, [Grant(KeyOf(p), p)], uid) == Some(t[KeyOf(p) := Grow(t[KeyOf(p)], p, uid)])
  {
    var g := Grant(KeyOf(p), p);
    var t' := t[g.key := Grow(t[g.key], p, uid)];
    assert [g][1..] == [] && CommitAll(t', [], uid) == Some(t');
  }

  lemma OthersStay(t: Table, t': Table, a: NodeAvail, k: Key)
    requires OnNode(a) && Mirrors(a.res, HostKeys(t, a.name), t) && t'.Keys == t.Keys && k.host != a.name
    requires forall l <- t | l != k :: t'[l] == t[l]
    ensures Mirrors(a.res, HostKeys(t', a.name), t')
  {
    assert HostKeys(t', a.name) == HostKeys(t, a.name);
  }

  lemma TakenInStep(t: Table, site: Site, avail: seq<NodeAvail>, n: nat, p: Req, rest: seq<Res>, uid: nat)
    requires Complete(t, site) && InStep(t, site, avail) && n < |avail| && Keyed(p) && KeyOf(p).host == avail[n].name
    requires Matchers.Served(avail[n].res, [Grant(KeyOf(p), p)], rest, HostKeys(t, avail[n].name), t, uid)
    ensures KeyOf(p) in t
    ensures var t' := t[KeyOf(p) := Grow(t[KeyOf(p)], p, uid)];
            Complete(t', site) && InStep(t', site, avail[n := avail[n].(res := rest)])
  {
    var k := KeyOf(p);
    OneCommit(t, p, uid);
    var t' := t[k := Grow(t[k], p, uid)];
    GrowSafe(t[k], p, uid);
    assert avail[n] in avail;
    assert HostKeys(t', avail[n].name) == HostKeys(t, avail[n].name);
    OneNodeChanged(t, t', site, avail, n, rest, k);
  }

  /** The table changes at one resource, and the list of its node with it. */
  lemma OneNodeChanged(t: Table, t': Table, site: Site, avail: seq<NodeAvail>, n: nat, rest: seq<Res>, k: Key)
    requires InStep(t, site, avail) && n < |avail| && k.host == avail[n].name && k in t && IsFree(t[k])
    requires t'.Keys == t.Keys && forall l <- t | l != k :: t'[l] == t[l]
    requires Mirrors(rest, HostKeys(t', avail[n].name), t')
    ensures InStep(t', site, avail[n := avail[n].(res := rest)])
  {
    var avail' := avail[n := avail[n].(res := rest)];
    forall a <- avail'
      ensures OnNode(a) && Usable(site, a.name) && Mirrors(a.res, HostKeys(t', a.name), t')
    {
      var i :| 0 <= i < |avail'| && avail'[i] == a;
      assert avail[i] in avail;
      if i != n { OthersStay(t, t', avail[i], k); }
    }
    forall l <- t' | Usable(site, l.host) && IsFree(t'[l])
      ensures exists a <- avail' :: a.name == l.host
    {
      var a :| a in avail && a.name == (if l == k then k else l).host;
      var i :| 0 <= i < |avail| && avail[i] == a;
      assert avail'[i] in avail' && avail'[i].name == l.host;
    }
  }

  /** What a node serves is taken from it, and the lists stay in step. */
  lemma GivenIsTaken(t: Table, site: Site, barred: set<string>, st: PlanState, g: nat, n: nat, q: Req, r: Res, rest: seq<Res>, uid: nat)
    requires Complete(t, site) && Shaped(st) && InStep(t, site, st.avail) && g < |st.groups| && n < |st.avail|
    requires r in st.avail[n].res && q.cls.Some? && CanAllocate(r, q) && Cheapest(t, site, barred, q, r.Key())
    requires Matchers.Served(st.avail[n].res, [Grant(r.Key(), Resolve(q, r.Key()))], rest, HostKeys(t, st.avail[n].name), t, uid)
    ensures var p := Resolve(q, r.Key());
            Taken(t, t[r.Key() := Grow(r, p, uid)], site, barred, q, st, Accept(st, g, n, [p], rest), g, uid)
  {
    var p := Resolve(q, r.Key());
    ListedFrom(t, site, st.avail, n, r);
    assert KeyOf(p) == r.Key();
    TakenInStep(t, site, st.avail, n, p, rest, uid);
  }

  // ------------------------------------------------------ free of both

  lemma AnywhereTakes(t: Table, site: Site, st: PlanState, g: nat, q: Req, uid: nat) returns (t': Table)
    requires Complete(t, site) && Shaped(st) && InStep(t, site, st.avail) && g < |st.groups|
    requires st.groups[g] == Reqs([q]) && q.cls.Some? && DOF(q) == 3 && TryAnywhere(Sorted(site, st), g, 0, uid).Done?
    ensures Taken(t, t', site, {}, q, st, TryAnywhere(Sorted(site, st), g, 0, uid).value, g, uid)
  {
    var s := Sorted(site, st);
    SortedInStep(t, site, st.avail);
    var m := AnywhereDecided(s, g, 0, uid);
    var a := s.avail[m];
    assert a in s.avail;
    var r := ThereLightest(a, q, uid);
    forall j | 0 <= j < m
      ensures !SomeServes(s.avail[j].res, q)
    {
      assert s.avail[j] in s.avail;
      NoneThere(s.avail[j], q, uid);
    }
    FirstIsCheapest(t, site, s.avail, {}, q, m, r);
    FilledOne(q, Resolve(q, r.Key()));
    NodeServed(t, site, s.avail, m, q, r, uid);
    GivenIsTaken(t, site, {}, s, g, m, q, r, OnNodeOf([q], a, uid).rest, uid);
    t' := t[r.Key() := Grow(r, Resolve(q, r.Key()), uid)];
  }

  lemma NodeServed(t: Table, site: Site, avail: seq<NodeAvail>, m: nat, q: Req, r: Res, uid: nat)
    requires InStep(t, site, avail) && m < |avail| && OnNodeOf([q], avail[m], uid).Matched? && q.cls.Some?
    requires OnNodeOf([q], avail[m], uid).reqs == [Resolve(q, r.Key())] && q.cls.value == r.Key().cls
    ensures Matchers.Served(avail[m].res, [Grant(r.Key(), Resolve(q, r.Key()))], OnNodeOf([q], avail[m], uid).rest, HostKeys(t, avail[m].name), t, uid)
  {
    InStepIsOk(t, site, avail);
    var picks := PlanTheorem.MovedServes([q], OnHosts(FreeOf([q]), avail[m].name), avail, m, t, uid);
    OnlyGrant(picks, Resolve(q, r.Key()));
  }

  // --------------------------------------------------------- with a host

  lemma SortedNodeInStep(t: Table, site: Site, avail: seq<NodeAvail>, n: nat)
    requires InStep(t, site, avail) && n < |avail|
    ensures InStep(t, site, SortedNode(avail, n))
  {
    var a := avail[n];
    var avail' := avail[n := a.(res := SortRes(a.res))];
    assert a in avail;
    SortResMembers(a.res);
    forall b <- avail'
      ensures OnNode(b) && Usable(site, b.name) && Mirrors(b.res, HostKeys(t, b.name), t)
    {
      var i :| 0 <= i < |avail'| && avail'[i] == b;
      if i != n { assert b in avail; }
    }
    forall k <- t | Usable(site, k.host) && IsFree(t[k])
      ensures exists b <- avail' :: b.name == k.host
    {
      var b :| b in avail && b.name == k.host;
      var i :| 0 <= i < |avail| && avail[i] == b;
      assert avail'[i] in avail' && avail'[i].name == k.host;
    }
  }

  /** What placing a request on its host comes to. */
  lemma OnHostIs(st: PlanState, g: nat, q: Req, p: Req, uid: nat)
    requires Shaped(st) && g < |st.groups| && st.groups[g] == Reqs([q]) && DOF(q) == 2 && PlaceOnHost(st, g, uid).Done?
    ensures var n := NodeIndex(st.avail, q.host.value);
            && n < |st.avail| && MatchPartly([q], SortRes(st.avail[n].res), uid).Matched?
            && var m := MatchPartly([q], SortRes(st.avail[n].res), uid);
               m.reqs == [p] ==> PlaceOnHost(st, g, uid) == Done(Accept(st.(groups := st.groups[g := Reqs([p])]), g, n, [p], m.rest))
  {
    AloneIsPasted(q);
    FilledOne(q, p);
  }

  lemma HostedTakes(t: Table, site: Site, st: PlanState, g: nat, q: Req, uid: nat) returns (t': Table)
    requires Complete(t, site) && Shaped(st) && InStep(t, site, st.avail) && g < |st.groups|
    requires st.groups[g] == Reqs([q]) && q.cls.Some? && DOF(q) == 2 && PlaceOnHost(st, g, uid).Done?
    ensures Taken(t, t', site, {}, q, st, PlaceOnHost(st, g, uid).value, g, uid)
  {
    OnHostIs(st, g, q, q, uid);
    var n := NodeIndex(st.avail, q.host.value);
    var a := st.avail[n];
    SortResSorts(a.res, 0);
    var r := MatchedLightest(q, SortRes(a.res), uid);
    var p := Resolve(q, r.Key());
    OnHostIs(st, g, q, p, uid);
    var rest := MatchPartly([q], SortRes(a.res), uid).rest;
    t' := t[r.Key() := Grow(r, p, uid)];
    GivenOnHost(t, site, st, g, n, q, r, rest, uid);
    assert PlaceOnHost(st, g, uid).value == Accept(st.(groups := st.groups[g := Reqs([p])]), g, n, [p], rest);
  }

  /** The list of a node, sorted. */
  function SortedNode(avail: seq<NodeAvail>, n: nat): seq<NodeAvail>
    requires n < |avail|
  {
    avail[n := avail[n].(res := SortRes(avail[n].res))]
  }

  lemma GivenSorted(t: Table, site: Site, st: PlanState, g: nat, n: nat, q: Req, r: Res, rest: seq<Res>, uid: nat)
    requires Complete(t, site) && Shaped(st) && InStep(t, site, st.avail) && g < |st.groups|
    requires n < |st.avail| && q.host == Some(st.avail[n].name) && q.cls.Some? && LightestFor(st.avail[n].res, q, r)
    requires MatchPartly([q], st.avail[n].res, uid) == Matched([Resolve(q, r.Key())], rest)
    ensures var p := Resolve(q, r.Key()); Taken(t, t[r.Key() := Grow(r, p, uid)], site, {}, q, st, Accept(st, g, n, [p], rest), g, uid)
  {
    OnlyHostIsCheapest(t, site, st.avail, q, n, r);
    HostServed(t, site, st.avail, n, q, r, uid);
    GivenIsTaken(t, site, {}, st, g, n, q, r, rest, uid);
  }

  lemma GivenOnHost(t: Table, site: Site, st: PlanState, g: nat, n: nat, q: Req, r: Res, rest: seq<Res>, uid: nat)
    requires Complete(t, site) && Shaped(st) && InStep(t, site, st.avail) && g < |st.groups|
    requires n < |st.avail| && q.host == Some(st.avail[n].name) && q.cls.Some? && LightestFor(SortRes(st.avail[n].res), q, r)
    requires MatchPartly([q], SortRes(st.avail[n].res), uid) == Matched([Resolve(q, r.Key())], rest)
    ensures var p := Resolve(q, r.Key());
            Taken(t, t[r.Key() := Grow(r, p, uid)], site, {}, q, st, Accept(st.(groups := st.groups[g := Reqs([p])]), g, n, [p], rest), g, uid)
  {
    var avail', p := SortedNode(st.avail, n), Resolve(q, r.Key());
    SortedNodeInStep(t, site, st.avail, n);
    GivenSorted(t, site, st.(avail := avail'), g, n, q, r, rest, uid);
    WrittenIsTaken(t, t[r.Key() := Grow(r, p, uid)], site, {}, q, st, avail', Accept(st.(avail := avail'), g, n, [p], rest), g, Reqs([p]), uid);
    assert st.avail[n := st.avail[n].(res := rest)] == avail'[n := avail'[n].(res := rest)];
  }

  lemma WrittenIsTaken(t: Table, t': Table, site: Site, barred: set<string>, q: Req, st: PlanState, avail': seq<NodeAvail>, st': PlanState, g: nat, written: Group, uid: nat)
    requires Shaped(st) && g < |st.groups| && Taken(t, t', site, barred, q, st.(avail := avail'), st', g, uid)
    ensures Taken(t, t', site, barred, q, st, st'.(groups := st'.groups[g := written]), g, uid)
  {
  }

  lemma HostServed(t: Table, site: Site, avail: seq<NodeAvail>, n: nat, q: Req, r: Res, uid: nat)
    requires InStep(t, site, avail) && n < |avail| && MatchPartly([q], avail[n].res, uid).Matched? && q.cls.Some?
    requires MatchPartly([q], avail[n].res, uid).reqs == [Resolve(q, r.Key())] && q.cls.value == r.Key().cls
    ensures Matchers.Served(avail[n].res, [Grant(r.Key(), Resolve(q, r.Key()))], MatchPartly([q], avail[n].res, uid).rest, HostKeys(t, avail[n].name), t, uid)
  {
    InStepIsOk(t, site, avail);
    var picks := PlanTheorem.MovedServes([q], [q], avail, n, t, uid);
    OnlyGrant(picks, Resolve(q, r.Key()));
  }

  // -------------------------------------------------------- with an index

  /** A node that serves a request with an index, and that nobody waits for. */
  ghost predicate Open(groups: seq<Group>, a: NodeAvail, q: Req, uid: nat) {
    RefsFor(groups, 0, a.name) == [] && MatchFixed([OnHost(q, a.name)], a.res, uid).Some?
  }

  /** One step of the search: an open node is taken, any other passed over, if the plan is
      to come to an end. */
  lemma IndexedStepTakes(groups: seq<Group>, st: PlanState, g: nat, q: Req, n: nat, uid: nat)
    requires Shaped(st) && g < |st.groups| && n < |st.avail| && st.groups[g] == Reqs([q]) && DOF(q) == 1
    requires Uncrowded(groups) && AsGiven(groups, st)
    requires TryIndexed(groups, st, g, n, uid).Done? && !Drained(groups, TryIndexed(groups, st, g, n, uid).value.groups)
    ensures TryIndexed(groups, st, g, n, uid) ==
              if Open(groups, st.avail[n], q, uid) then
                Done(Accept(st, g, n, [OnHost(q, st.avail[n].name)], MatchFixed([OnHost(q, st.avail[n].name)], st.avail[n].res, uid).value))
              else TryIndexed(groups, st, g, n + 1, uid)
  {
    var a := st.avail[n];
    AloneIsPasted(q);
    assert OnHosts([q], a.name) == [OnHost(q, a.name)];
    FilledOne(q, OnHost(q, a.name));
    var refs := RefsFor(groups, 0, a.name);
    var left := MatchFixed([OnHost(q, a.name)], a.res, uid);
    if left.Some? && refs != [] {
      LookForFirst(groups, st.groups, a.name, left.value, uid);
      var live := Looked(groups, st.groups, a.name, left.value, uid);
      if live == st.groups {
        assert st.(groups := live) == st;
      } else if MatchPartly(ReadRefs(st.groups, refs), left.value, uid).NoMatch? {
        TryIndexedStaysDrained(groups, st.(groups := live), g, n + 1, uid);
      }
    }
  }

  ghost predicate NoneOpen(groups: seq<Group>, avail: seq<NodeAvail>, q: Req, n: nat, m: nat, uid: nat)
    requires m <= |avail|
  {
    forall j | n <= j < m :: !Open(groups, avail[j], q, uid)
  }

  lemma {:induction false} IndexedFirstOpen(groups: seq<Group>, st: PlanState, g: nat, q: Req, n: nat, uid: nat) returns (m: nat)
    requires Shaped(st) && g < |st.groups| && n <= |st.avail| && st.groups[g] == Reqs([q]) && DOF(q) == 1
    requires Uncrowded(groups) && AsGiven(groups, st)
    requires TryIndexed(groups, st, g, n, uid).Done? && !Drained(groups, TryIndexed(groups, st, g, n, uid).value.groups)
    ensures n <= m < |st.avail| && Open(groups, st.avail[m], q, uid) && NoneOpen(groups, st.avail, q, n, m, uid)
    ensures TryIndexed(groups, st, g, n, uid) ==
              Done(Accept(st, g, m, [OnHost(q, st.avail[m].name)], MatchFixed([OnHost(q, st.avail[m].name)], st.avail[m].res, uid).value))
    decreases |st.avail| - n
  {
    if n == |st.avail| {
      IndexedEnds(groups, st, g, uid);
    } else {
      IndexedStepTakes(groups, st, g, q, n, uid);
      m := n;
      if !Open(groups, st.avail[n], q, uid) {
        m := IndexedFirstOpen(groups, st, g, q, n + 1, uid);
        assert NoneOpen(groups, st.avail, q, n, m, uid);
      }
    }
  }

  /** Somebody waits for a host exactly if it is awaited. */
  lemma WaitsIfAwaited(groups: seq<Group>, host: string)
    requires AllSingles(groups)
    ensures RefsFor(groups, 0, host) != [] <==> host in Awaited(groups)
  {
    RefsForAre(groups, 0, host);
    var refs := RefsFor(groups, 0, host);
    forall i | 0 <= i < |groups|
      ensures GroupDOF(groups[i]) == DOF(Wish(groups, i))
    {
      OneDegree(groups, i);
    }
    if refs != [] {
      var r := refs[0];
      assert r in refs && Waits(groups, r, host);
      assert Wish(groups, r.g).host.value in Awaited(groups);
    }
    if i :| 0 <= i < |groups| && DOF(Wish(groups, i)) == 2 && Wish(groups, i).host.value == host {
      assert Waits(groups, Ref(i, 0), host);
    }
  }

  lemma OneDegree(groups: seq<Group>, i: nat)
    requires AllSingles(groups) && i < |groups|
    ensures groups[i] == Reqs([Wish(groups, i)]) && GroupDOF(groups[i]) == DOF(Wish(groups, i))
  {
    AloneIsPasted(Wish(groups, i));
    assert groups[i].reqs == [Wish(groups, i)];
  }

  lemma OpenMeans(groups: seq<Group>, a: NodeAvail, q: Req, uid: nat)
    requires AllSingles(groups) && OnNode(a) && DOF(q) == 1 && q.cls.Some?
    ensures Open(groups, a, q, uid) <==> a.name !in Awaited(groups) && SomeServes(a.res, q)
  {
    WaitsIfAwaited(groups, a.name);
    OneMatched(OnHost(q, a.name), a.res, uid);
    SingleRequests.MovedServes(a, q);
  }

  lemma IndexedTakes(t: Table, site: Site, groups: seq<Group>, st: PlanState, g: nat, q: Req, uid: nat) returns (t': Table)
    requires Complete(t, site) && Shaped(st) && InStep(t, site, st.avail) && g < |st.groups|
    requires AllSingles(groups) && Uncrowded(groups) && AsGiven(groups, st)
    requires st.groups[g] == Reqs([q]) && q.cls.Some? && DOF(q) == 1 && TryIndexed(groups, Sorted(site, st), g, 0, uid).Done?
    requires !Drained(groups, TryIndexed(groups, Sorted(site, st), g, 0, uid).value.groups)
    ensures var st' := TryIndexed(groups, Sorted(site, st), g, 0, uid).value;
            Taken(t, t', site, Awaited(groups), q, st, st', g, uid) && st'.groups == st.groups
  {
    var s := Sorted(site, st);
    SortedInStep(t, site, st.avail);
    var m := IndexedFirstOpen(groups, s, g, q, 0, uid);
    var a := s.avail[m];
    assert a in s.avail;
    OpenMeans(groups, a, q, uid);
    var r :| r in a.res && CanAllocate(r, q);
    IndexedIsOnly(a, q, r);
    forall j | 0 <= j < m
      ensures s.avail[j].name in Awaited(groups) || !SomeServes(s.avail[j].res, q)
    {
      assert s.avail[j] in s.avail;
      OpenMeans(groups, s.avail[j], q, uid);
    }
    FirstIsCheapest(t, site, s.avail, Awaited(groups), q, m, r);
    var p := OnHost(q, a.name);
    MatchFixedServes([p], a.res, HostKeys(t, a.name), t, uid);
    OnlyGrant(GrantsOf([p]), p);
    GivenIsTaken(t, site, Awaited(groups), s, g, m, q, r, MatchFixed([p], a.res, uid).value, uid);
    t' := t[r.Key() := Grow(r, p, uid)];
  }

  // -------------------------------------------------------- turn by turn

  /** The items in order have their turns one after another, with these tables before,
      between and after. */
  ghost predicate Turns(groups: seq<Group>, site: Site, order: seq<nat>, tables: seq<Table>, plan: seq<seq<Req>>, uid: nat)
    requires AllSingles(groups)
  {
    && |tables| == |order| + 1 && |plan| == |groups|
    && forall i | 0 <= i < |order| ::
         && order[i] < |groups|
         && Turn(tables[i], tables[i + 1], site, Barred(groups, Wish(groups, order[i])), Wish(groups, order[i]), plan[order[i]], uid)
  }

  /** A round of turns leads from one state of the plan to another. */
  ghost predicate Round(groups: seq<Group>, site: Site, st: PlanState, st': PlanState, todo: seq<nat>, tables: seq<Table>, uid: nat)
    requires AllSingles(groups)
  {
    && Shaped(st) && Shaped(st') && |st.groups| == |groups| && |st'.groups| == |groups|
    && Turns(groups, site, todo, tables, Chosen(st'.chosen), uid)
    && Complete(tables[|todo|], site) && InStep(tables[|todo|], site, st'.avail)
    && forall i | 0 <= i < |groups| && i !in todo :: st'.chosen[i] == st.chosen[i] && st'.groups[i] == st.groups[i]
  }

  lemma NoTurns(groups: seq<Group>, site: Site, st: PlanState, t: Table, uid: nat)
    requires AllSingles(groups) && Shaped(st) && |st.groups| == |groups| && Complete(t, site) && InStep(t, site, st.avail)
    ensures Round(groups, site, st, st, [], [t], uid)
  {
  }

  /** Each index once, from low to high. */
  ghost predicate Upwards(todo: seq<nat>) { forall i, j | 0 <= i < j < |todo| :: todo[i] < todo[j] }

  lemma OneTurnFirst(groups: seq<Group>, site: Site, todo: seq<nat>, t: Table, later: seq<Table>, plan: seq<seq<Req>>, uid: nat)
    requires AllSingles(groups) && todo != [] && todo[0] < |groups| && later != [] && |plan| == |groups|
    requires Turn(t, later[0], site, Barred(groups, Wish(groups, todo[0])), Wish(groups, todo[0]), plan[todo[0]], uid)
    requires Turns(groups, site, todo[1..], later, plan, uid)
    ensures Turns(groups, site, todo, [t] + later, plan, uid)
  {
    var tables := [t] + later;
    forall i | 0 <= i < |todo|
      ensures todo[i] < |groups|
      ensures Turn(tables[i], tables[i + 1], site, Barred(groups, Wish(groups, todo[i])), Wish(groups, todo[i]), plan[todo[i]], uid)
    {
      if i > 0 {
        assert todo[1..][i - 1] == todo[i];
        assert tables[i] == later[i - 1] && tables[i + 1] == later[i - 1 + 1];
      }
    }
  }

  lemma OneMoreTurn(groups: seq<Group>, site: Site, st: PlanState, st1: PlanState, st': PlanState, todo: seq<nat>, t: Table, later: seq<Table>, uid: nat)
    requires AllSingles(groups) && todo != [] && Upwards(todo) && todo[0] < |groups| && |st.groups| == |groups|
    requires later != [] && Taken(t, later[0], site, Barred(groups, Wish(groups, todo[0])), Wish(groups, todo[0]), st, st1, todo[0], uid)
    requires Round(groups, site, st1, st', todo[1..], later, uid)
    ensures Round(groups, site, st, st', todo, [t] + later, uid)
  {
    var rest := todo[1..];
    assert forall i | 0 <= i < |rest| :: rest[i] == todo[i + 1];
    assert todo[0] !in rest;
    OneTurnFirst(groups, site, todo, t, later, Chosen(st'.chosen), uid);
    assert ([t] + later)[|todo|] == later[|rest|];
  }

  lemma TurnsAfterTurns(groups: seq<Group>, site: Site, a: seq<nat>, b: seq<nat>, ts: seq<Table>, us: seq<Table>, plan: seq<seq<Req>>, uid: nat)
    requires AllSingles(groups) && Turns(groups, site, a, ts, plan, uid) && Turns(groups, site, b, us, plan, uid) && us[0] == ts[|a|]
    ensures Turns(groups, site, a + b, ts + us[1..], plan, uid)
  {
    var order, tables := a + b, ts + us[1..];
    forall i | 0 <= i < |order|
      ensures order[i] < |groups|
      ensures Turn(tables[i], tables[i + 1], site, Barred(groups, Wish(groups, order[i])), Wish(groups, order[i]), plan[order[i]], uid)
    {
      if i < |a| {
        assert order[i] == a[i] && tables[i] == ts[i] && tables[i + 1] == ts[i + 1];
      } else {
        var j := i - |a|;
        assert order[i] == b[j] && tables[i] == us[j] && tables[i + 1] == us[j + 1];
      }
    }
  }

  lemma TurnsStand(groups: seq<Group>, site: Site, a: seq<nat>, ts: seq<Table>, plan: seq<seq<Req>>, plan': seq<seq<Req>>, uid: nat)
    requires AllSingles(groups) && Turns(groups, site, a, ts, plan, uid) && |plan'| == |plan|
    requires forall i <- a :: i < |groups| ==> plan'[i] == plan[i]
    ensures Turns(groups, site, a, ts, plan', uid)
  {
    forall i | 0 <= i < |a|
      ensures a[i] < |groups| && plan'[a[i]] == plan[a[i]]
    {
      assert a[i] in a;
    }
  }

  lemma RoundAfterRound(groups: seq<Group>, site: Site, st: PlanState, st1: PlanState, st2: PlanState,
                        a: seq<nat>, b: seq<nat>, ts: seq<Table>, us: seq<Table>, uid: nat)
    requires AllSingles(groups) && Round(groups, site, st, st1, a, ts, uid) && Round(groups, site, st1, st2, b, us, uid)
    requires us[0] == ts[|a|] && forall i <- a :: i !in b
    ensures Round(groups, site, st, st2, a + b, ts + us[1..], uid)
  {
    TurnsStand(groups, site, a, ts, Chosen(st1.chosen), Chosen(st2.chosen), uid);
    TurnsAfterTurns(groups, site, a, b, ts, us, Chosen(st2.chosen), uid);
    assert (ts + us[1..])[|a + b|] == us[|b|];
  }

  // -------------------------------------------------------- the three steps

  /** The items in todo wait as they were asked for, each with d degrees of freedom. */
  ghost predicate Wait(groups: seq<Group>, st: PlanState, todo: seq<nat>, d: nat)
    requires AllSingles(groups)
  {
    && Shaped(st) && |st.groups| == |groups| && InRange(todo, |groups|) && Upwards(todo)
    && forall i <- todo :: i < |groups| && st.groups[i] == groups[i] && DOF(Wish(groups, i)) == d
  }

  lemma StillWait(groups: seq<Group>, st: PlanState, st1: PlanState, todo: seq<nat>, d: nat)
    requires AllSingles(groups) && todo != [] && Wait(groups, st, todo, d) && Shaped(st1) && |st1.groups| == |groups|
    requires forall i | 0 <= i < |groups| && i != todo[0] :: st1.groups[i] == st.groups[i]
    ensures Wait(groups, st1, todo[1..], d)
  {
    var rest := todo[1..];
    assert forall i | 0 <= i < |rest| :: rest[i] == todo[i + 1];
    forall i <- rest
      ensures i < |groups| && st1.groups[i] == groups[i] && DOF(Wish(groups, i)) == d
    {
      var j :| 0 <= j < |rest| && rest[j] == i;
      assert todo[j + 1] in todo;
    }
  }

  lemma {:induction false} AnywhereInTurn(t: Table, site: Site, groups: seq<Group>, st: PlanState, todo: seq<nat>, uid: nat) returns (tables: seq<Table>)
    requires Complete(t, site) && AllSingles(groups) && Wait(groups, st, todo, 3) && InStep(t, site, st.avail)
    requires PlaceAnywhere(site, st, todo, uid).Done?
    ensures Round(groups, site, st, PlaceAnywhere(site, st, todo, uid).value, todo, tables, uid) && tables[0] == t
    decreases |todo|
  {
    if todo == [] {
      NoTurns(groups, site, st, t, uid);
      tables := [t];
    } else {
      assert todo[0] in todo;
      OneDegree(groups, todo[0]);
      var t1 := AnywhereTakes(t, site, st, todo[0], Wish(groups, todo[0]), uid);
      var st1 := TryAnywhere(Sorted(site, st), todo[0], 0, uid).value;
      StillWait(groups, st, st1, todo, 3);
      var later := AnywhereInTurn(t1, site, groups, st1, todo[1..], uid);
      OneMoreTurn(groups, site, st, st1, PlaceAnywhere(site, st, todo, uid).value, todo, t, later, uid);
      tables := [t] + later;
    }
  }

  lemma {:induction false} HostedInTurn(t: Table, site: Site, groups: seq<Group>, st: PlanState, todo: seq<nat>, uid: nat) returns (tables: seq<Table>)
    requires Complete(t, site) && AllSingles(groups) && Wait(groups, st, todo, 2) && InStep(t, site, st.avail)
    requires PlaceHosted(st, todo, uid).Done?
    ensures Round(groups, site, st, PlaceHosted(st, todo, uid).value, todo, tables, uid) && tables[0] == t
    decreases |todo|
  {
    if todo == [] {
      NoTurns(groups, site, st, t, uid);
      tables := [t];
    } else {
      assert todo[0] in todo;
      OneDegree(groups, todo[0]);
      var t1 := HostedTakes(t, site, st, todo[0], Wish(groups, todo[0]), uid);
      var st1 := PlaceOnHost(st, todo[0], uid).value;
      StillWait(groups, st, st1, todo, 2);
      var later := HostedInTurn(t1, site, groups, st1, todo[1..], uid);
      OneMoreTurn(groups, site, st, st1, PlaceHosted(st, todo, uid).value, todo, t, later, uid);
      tables := [t] + later;
    }
  }

  lemma {:induction false} IndexedInTurn(t: Table, site: Site, groups: seq<Group>, st: PlanState, todo: seq<nat>, uid: nat) returns (tables: seq<Table>)
    requires Complete(t, site) && AllSingles(groups) && Wait(groups, st, todo, 1) && InStep(t, site, st.avail)
    requires (todo != [] ==> Uncrowded(groups)) && AsGiven(groups, st)
    requires PlaceIndexed(site, groups, st, todo, uid).Done? && !Drained(groups, PlaceIndexed(site, groups, st, todo, uid).value.groups)
    ensures Round(groups, site, st, PlaceIndexed(site, groups, st, todo, uid).value, todo, tables, uid) && tables[0] == t
    ensures PlaceIndexed(site, groups, st, todo, uid).value.groups == st.groups
    decreases |todo|
  {
    if todo == [] {
      NoTurns(groups, site, st, t, uid);
      tables := [t];
    } else {
      assert todo[0] in todo;
      OneDegree(groups, todo[0]);
      NotDrainedFirst(site, groups, st, todo, uid);
      var t1 := IndexedTakes(t, site, groups, st, todo[0], Wish(groups, todo[0]), uid);
      var st1 := TryIndexed(groups, Sorted(site, st), todo[0], 0, uid).value;
      StillWait(groups, st, st1, todo, 1);
      var later := IndexedInTurn(t1, site, groups, st1, todo[1..], uid);
      OneMoreTurn(groups, site, st, st1, PlaceIndexed(site, groups, st, todo, uid).value, todo, t, later, uid);
      tables := [t] + later;
    }
  }

  // -------------------------------------------------------- the fixed ones

  function Wishes(groups: seq<Group>, todo: seq<nat>): seq<Req>
    requires InRange(todo, |groups|) && forall i | 0 <= i < |groups| :: groups[i].Reqs? && |groups[i].reqs| == 1
  {
    seq(|todo|, i requires 0 <= i < |todo| => Wish(groups, todo[i]))
  }

  lemma FixedTurn(t: Table, site: Site, q: Req, uid: nat)
    requires Complete(t, site) && Keyed(q) && KeyOf(q) in t && CanAllocate(t[KeyOf(q)], q) && Usable(site, KeyOf(q).host)
    ensures var t' := t[KeyOf(q) := Grow(t[KeyOf(q)], q, uid)]; Turn(t, t', site, {}, q, [q], uid) && Complete(t', site)
  {
    var k := KeyOf(q);
    GrowSafe(t[k], q, uid);
    ServesIs(t, site, q, k);
    forall l | Serves(t, site, q, l) ensures l == k { assert t[l].Key() == l; }
  }

  /** The items in todo are fixed, for resources of usable nodes. */
  ghost predicate AllFixed(site: Site, groups: seq<Group>, todo: seq<nat>)
    requires AllSingles(groups)
  {
    InRange(todo, |groups|) && forall i <- todo :: i < |groups| && DOF(Wish(groups, i)) == 0 && Usable(site, KeyOf(Wish(groups, i)).host)
  }

  ghost predicate FixedRun(t: Table, site: Site, groups: seq<Group>, todo: seq<nat>, tables: seq<Table>, uid: nat)
    requires AllSingles(groups) && InRange(todo, |groups|)
  {
    && Turns(groups, site, todo, tables, Chosen(StartChosen(groups)), uid) && tables[0] == t
    && CommitAll(t, GrantsOf(Wishes(groups, todo)), uid) == Some(tables[|todo|])
  }

  lemma NoFixed(t: Table, site: Site, groups: seq<Group>, uid: nat)
    requires AllSingles(groups)
    ensures FixedRun(t, site, groups, [], [t], uid)
  {
    assert Wishes(groups, []) == [] && GrantsOf([]) == [];
  }

  lemma OneMoreFixed(t: Table, t': Table, site: Site, groups: seq<Group>, todo: seq<nat>, later: seq<Table>, uid: nat)
    requires AllSingles(groups) && todo != [] && InRange(todo, |groups|) && InRange(todo[1..], |groups|)
    requires Turn(t, t', site, Barred(groups, Wish(groups, todo[0])), Wish(groups, todo[0]), Chosen(StartChosen(groups))[todo[0]], uid)
    requires CommitAll(t, GrantsOf(Wishes(groups, todo)), uid) == CommitAll(t', GrantsOf(Wishes(groups, todo[1..])), uid)
    requires FixedRun(t', site, groups, todo[1..], later, uid)
    ensures FixedRun(t, site, groups, todo, [t] + later, uid)
  {
    OneTurnFirst(groups, site, todo, t, later, Chosen(StartChosen(groups)), uid);
    assert ([t] + later)[|todo|] == later[|todo| - 1];
  }

  lemma {:induction false} FixedInTurn(t: Table, site: Site, groups: seq<Group>, todo: seq<nat>, uid: nat) returns (tables: seq<Table>)
    requires Complete(t, site) && AllSingles(groups) && AllFixed(site, groups, todo)
    requires CommitAll(t, GrantsOf(Wishes(groups, todo)), uid).Some?
    ensures FixedRun(t, site, groups, todo, tables, uid)
    decreases |todo|
  {
    if todo == [] {
      NoFixed(t, site, groups, uid);
      tables := [t];
    } else {
      var t1 := FirstFixedTurn(t, site, groups, todo, uid);
      var later := FixedInTurn(t1, site, groups, todo[1..], uid);
      OneMoreFixed(t, t1, site, groups, todo, later, uid);
      tables := [t] + later;
    }
  }

  lemma FirstFixedTurn(t: Table, site: Site, groups: seq<Group>, todo: seq<nat>, uid: nat) returns (t': Table)
    requires Complete(t, site) && AllSingles(groups) && todo != [] && AllFixed(site, groups, todo)
    requires CommitAll(t, GrantsOf(Wishes(groups, todo)), uid).Some?
    ensures Complete(t', site) && AllFixed(site, groups, todo[1..])
    ensures Turn(t, t', site, Barred(groups, Wish(groups, todo[0])), Wish(groups, todo[0]), Chosen(StartChosen(groups))[todo[0]], uid)
    ensures CommitAll(t, GrantsOf(Wishes(groups, todo)), uid) == CommitAll(t', GrantsOf(Wishes(groups, todo[1..])), uid)
  {
    var q := Wish(groups, todo[0]);
    assert todo[0] in todo;
    WishesFirst(t, groups, todo, uid);
    t' := t[KeyOf(q) := Grow(t[KeyOf(q)], q, uid)];
    FixedTurn(t, site, q, uid);
    FixedChosen(groups, todo[0]);
  }

  lemma WishesFirst(t: Table, groups: seq<Group>, todo: seq<nat>, uid: nat)
    requires AllSingles(groups) && InRange(todo, |groups|) && todo != [] && Keyed(Wish(groups, todo[0]))
    requires CommitAll(t, GrantsOf(Wishes(groups, todo)), uid).Some?
    ensures var q := Wish(groups, todo[0]);
            && KeyOf(q) in t && CanAllocate(t[KeyOf(q)], q)
            && CommitAll(t, GrantsOf(Wishes(groups, todo)), uid)
               == CommitAll(t[KeyOf(q) := Grow(t[KeyOf(q)], q, uid)], GrantsOf(Wishes(groups, todo[1..])), uid)
  {
    assert Wishes(groups, todo) == [Wish(groups, todo[0])] + Wishes(groups, todo[1..]);
  }

  lemma FixedChosen(groups: seq<Group>, i: nat)
    requires AllSingles(groups) && i < |groups| && DOF(Wish(groups, i)) == 0
    ensures Chosen(StartChosen(groups))[i] == [Wish(groups, i)]
  {
    OneDegree(groups, i);
  }

  lemma FixedFrom(groups: seq<Group>, d: nat, n: nat)
    requires AllSingles(groups) && n < |groups|
    ensures FixedWithDOF(groups[n..], d)
         == (if DOF(Wish(groups, n)) == d && d == 0 then [Wish(groups, n)] else []) + FixedWithDOF(groups[n + 1..], d)
  {
    OneDegree(groups, n);
    AloneIsPasted(Wish(groups, n));
    assert groups[n..][0] == groups[n] && groups[n..][1..] == groups[n + 1..];
  }

  lemma TodoFrom(groups: seq<Group>, d: nat, n: nat)
    requires AllSingles(groups) && n < |groups|
    ensures WithDOF(groups, d, n) == (if DOF(Wish(groups, n)) == d then [n] else []) + WithDOF(groups, d, n + 1)
  {
    OneDegree(groups, n);
  }

  lemma WishesCons(groups: seq<Group>, i: nat, todo: seq<nat>)
    requires AllSingles(groups) && i < |groups| && InRange(todo, |groups|)
    ensures InRange([i] + todo, |groups|) && Wishes(groups, [i] + todo) == [Wish(groups, i)] + Wishes(groups, todo)
  {
  }

  lemma {:induction false} FixedAreWishes(groups: seq<Group>, d: nat, n: nat)
    requires AllSingles(groups) && n <= |groups|
    ensures InRange(WithDOF(groups, d, n), |groups|)
    ensures FixedWithDOF(groups[n..], d) == if d == 0 then Wishes(groups, WithDOF(groups, d, n)) else []
    decreases |groups| - n
  {
    WithDOFBounds(groups, d, n);
    if n < |groups| {
      FixedAreWishes(groups, d, n + 1);
      FixedFrom(groups, d, n);
      TodoFrom(groups, d, n);
      if DOF(Wish(groups, n)) == d { WishesCons(groups, n, WithDOF(groups, d, n + 1)); }
    }
  }

  lemma FixedFirst(groups: seq<Group>)
    requires AllSingles(groups)
    ensures InRange(WithDOF(groups, 0, 0), |groups|) && FixedByDOF(groups) == Wishes(groups, WithDOF(groups, 0, 0))
  {
    assert groups[0..] == groups;
    FixedAreWishes(groups, 0, 0);
    FixedAreWishes(groups, 1, 0);
    FixedAreWishes(groups, 2, 0);
    FixedAreWishes(groups, 3, 0);
  }

  lemma SinglesArePasted(groups: seq<Group>)
    requires AllSingles(groups)
    ensures PasteAll(groups) == groups
  {
    forall i | 0 <= i < |groups|
      ensures PasteGroup(groups[i]) == groups[i]
    {
      OneDegree(groups, i);
      AloneIsPasted(Wish(groups, i));
      assert PasteAll(Alone(Wish(groups, i)))[0] == Alone(Wish(groups, i))[0];
    }
  }

  /** The fixed requests have passed the checks, so their nodes are usable. */
  lemma FixedUsable(t: Table, site: Site, groups: seq<Group>, i: nat)
    requires SafeTable(t) && AllSingles(groups) && Validate(t, site, groups).None? && i < |groups| && DOF(Wish(groups, i)) == 0
    ensures Usable(site, KeyOf(Wish(groups, i)).host)
  {
    var fixed, q := FixedAll(groups), Wish(groups, i);
    SinglesArePasted(groups);
    FixedMeans(groups);
    FixedAreKeyed(t, site, fixed);
    assert q in groups[i].reqs;
    var j :| 0 <= j < |fixed| && fixed[j] == q;
    NamedIsInPool(t, site, fixed, j);
  }

  // ------------------------------------------------------------- the start

  lemma FreeBefore(t: Table, gs: seq<Grant>, uid: nat, k: Key)
    requires SafeTable(t) && CommitAll(t, gs, uid).Some? && k in CommitAll(t, gs, uid).value && IsFree(CommitAll(t, gs, uid).value[k])
    ensures k in t && IsFree(t[k])
  {
    WholePick.CommitOnlyAdds(t, gs, uid);
    WholePick.StemIsFree(CommitAll(t, gs, uid).value[k], t);
  }

  lemma StartInStep(t: Table, site: Site, gs: seq<Grant>, uid: nat)
    requires Complete(t, site) && CommitAll(FreePool(t, site), gs, uid).Some?
    ensures CommitAll(t, gs, uid).Some?
    ensures var t1 := CommitAll(t, gs, uid).value;
            Complete(t1, site) && InStep(t1, site, AvailOn(site.order, CommitAll(FreePool(t, site), gs, uid).value, Hosts(site.order, site)))
  {
    var free := FreePool(t, site);
    StartAvailOk(t, site, gs, uid);
    CommitOnPart(free, t, gs, uid);
    CommitKeepsSafe(t, gs, uid);
    CommitByKey(t, gs, uid);
    CommitByKey(free, gs, uid);
    var t1, pool, hosts := CommitAll(t, gs, uid).value, CommitAll(free, gs, uid).value, Hosts(site.order, site);
    var avail := AvailOn(site.order, pool, hosts);
    HostsMembers(site.order, site);
    forall k <- t1 | Usable(site, k.host) && IsFree(t1[k])
      ensures k in pool && pool[k] == t1[k] && k.host in hosts
    {
      FreeBefore(t, gs, uid, k);
      assert Eligible(site, k) && k in free;
    }
    forall i | 0 <= i < |avail|
      ensures OnNode(avail[i]) && Usable(site, avail[i].name) && Mirrors(avail[i].res, HostKeys(t1, avail[i].name), t1)
    {
      assert avail[i] in avail && hosts[i] in hosts;
      FreeOnMembers(site.order, pool, hosts[i]);
    }
    forall k <- t1 | Usable(site, k.host) && IsFree(t1[k])
      ensures exists a <- avail :: a.name == k.host
    {
      var i :| 0 <= i < |hosts| && hosts[i] == k.host;
      assert avail[i] in avail;
    }
  }

  // ------------------------------------------------------------ the result

  /** All items, those with less freedom first, and else in order. */
  ghost predicate ByFreedom(groups: seq<Group>, order: seq<nat>)
    requires AllSingles(groups)
  {
    && InRange(order, |groups|)
    && (forall i | 0 <= i < |groups| :: i in order)
    && forall i, j | 0 <= i < j < |order| :: Earlier(groups, order[i], order[j])
  }

  ghost predicate Earlier(groups: seq<Group>, i: nat, j: nat)
    requires AllSingles(groups)
  {
    && i < |groups| && j < |groups|
    && (DOF(Wish(groups, i)) < DOF(Wish(groups, j)) || (DOF(Wish(groups, i)) == DOF(Wish(groups, j)) && i < j))
  }

  lemma TodoIs(groups: seq<Group>, d: nat)
    requires AllSingles(groups)
    ensures var todo := WithDOF(groups, d, 0);
            && InRange(todo, |groups|) && Upwards(todo)
            && forall i :: i in todo <==> 0 <= i < |groups| && DOF(Wish(groups, i)) == d
  {
    var todo := WithDOF(groups, d, 0);
    WithDOFBounds(groups, d, 0);
    forall i | 0 <= i < |groups| ensures GroupDOF(groups[i]) == DOF(Wish(groups, i)) { OneDegree(groups, i); }
    forall i <- todo
      ensures 0 <= i < |groups| && DOF(Wish(groups, i)) == d
    {
      var j :| 0 <= j < |todo| && todo[j] == i;
    }
  }

  lemma Appended(groups: seq<Group>, a: seq<nat>, b: seq<nat>)
    requires AllSingles(groups)
    requires (forall i, j | 0 <= i < j < |a| :: Earlier(groups, a[i], a[j])) && (forall i, j | 0 <= i < j < |b| :: Earlier(groups, b[i], b[j]))
    requires forall i <- a, j <- b :: Earlier(groups, i, j)
    ensures forall i, j | 0 <= i < j < |a + b| :: Earlier(groups, (a + b)[i], (a + b)[j])
  {
    forall i, j | 0 <= i < j < |a + b|
      ensures Earlier(groups, (a + b)[i], (a + b)[j])
    {
      if i < |a| <= j { assert a[i] in a && b[j - |a|] in b; }
    }
  }

  lemma TodoEarlier(groups: seq<Group>, d: nat)
    requires AllSingles(groups)
    ensures var todo := WithDOF(groups, d, 0); forall i, j | 0 <= i < j < |todo| :: Earlier(groups, todo[i], todo[j])
  {
    var todo := WithDOF(groups, d, 0);
    TodoIs(groups, d);
    forall i, j | 0 <= i < j < |todo| ensures Earlier(groups, todo[i], todo[j]) { assert todo[i] in todo && todo[j] in todo; }
  }

  function Order(groups: seq<Group>): seq<nat> {
    WithDOF(groups, 0, 0) + WithDOF(groups, 1, 0) + WithDOF(groups, 2, 0) + WithDOF(groups, 3, 0)
  }

  lemma OrderIsByFreedom(groups: seq<Group>)
    requires AllSingles(groups)
    ensures ByFreedom(groups, Order(groups))
  {
    var a, b, c, d := WithDOF(groups, 0, 0), WithDOF(groups, 1, 0), WithDOF(groups, 2, 0), WithDOF(groups, 3, 0);
    TodoIs(groups, 0);
    TodoIs(groups, 1);
    TodoIs(groups, 2);
    TodoIs(groups, 3);
    TodoEarlier(groups, 0);
    TodoEarlier(groups, 1);
    TodoEarlier(groups, 2);
    TodoEarlier(groups, 3);
    Appended(groups, a, b);
    Appended(groups, a + b, c);
    Appended(groups, a + b + c, d);
  }

  /** Fixed requests, taken in order before anything else. */
  lemma StartInTurn(t: Table, site: Site, groups: seq<Group>, uid: nat) returns (tables: seq<Table>)
    requires Complete(t, site) && AllSingles(groups) && Validate(t, site, groups).None? && Start(t, site, groups, uid).Done?
    ensures var st := Start(t, site, groups, uid).value;
            && st.groups == groups && st.chosen == StartChosen(groups)
            && Round(groups, site, st, st, WithDOF(groups, 0, 0), tables, uid) && tables[0] == t
  {
    var todo := WithDOF(groups, 0, 0);
    TodoIs(groups, 0);
    FixedFirst(groups);
    StartInStep(t, site, GrantsOf(Wishes(groups, todo)), uid);
    forall i <- todo
      ensures i < |groups| && DOF(Wish(groups, i)) == 0 && Usable(site, KeyOf(Wish(groups, i)).host)
    {
      FixedUsable(t, site, groups, i);
    }
    tables := FixedInTurn(t, site, groups, todo, uid);
  }

  lemma GivenUncrowded(groups: seq<Group>, st: PlanState)
    requires AllSingles(groups) && st.groups == groups
    ensures (WithDOF(groups, 1, 0) != [] ==> Uncrowded(groups)) && AsGiven(groups, st)
  {
    forall g <- groups | g.Reqs? ensures |g.reqs| <= 1 { var i :| 0 <= i < |groups| && groups[i] == g; }
    Spoiling.ShortListsNeverSpoil(groups);
    SinglesArePasted(groups);
    IndexedUncrowded(groups);
    forall i | 0 <= i < |groups| ensures Uniform(GroupReqs(groups[i])) { OneDegree(groups, i); }
  }

  /** Those still to come wait after a round of others. */
  lemma OthersWait(groups: seq<Group>, st: PlanState, st': PlanState, d: nat)
    requires AllSingles(groups) && Shaped(st') && |st'.groups| == |groups| && st.groups == groups
    requires forall i | 0 <= i < |groups| && DOF(Wish(groups, i)) >= d :: st'.groups[i] == groups[i]
    ensures Wait(groups, st', WithDOF(groups, d, 0), d)
  {
    TodoIs(groups, d);
  }

  /** The items with an index, and then those with a host. */
  lemma FirstStepsInTurn(t: Table, site: Site, groups: seq<Group>, st: PlanState, uid: nat) returns (tables: seq<Table>)
    requires Complete(t, site) && AllSingles(groups) && Shaped(st) && st.groups == groups && InStep(t, site, st.avail)
    requires InRange(WithDOF(groups, 1, 0), |groups|) && InRange(WithDOF(groups, 2, 0), |groups|)
    requires PlaceIndexed(site, groups, st, WithDOF(groups, 1, 0), uid).Done?
    requires PlaceHosted(PlaceIndexed(site, groups, st, WithDOF(groups, 1, 0), uid).value, WithDOF(groups, 2, 0), uid).Done?
    ensures var st2 := PlaceHosted(PlaceIndexed(site, groups, st, WithDOF(groups, 1, 0), uid).value, WithDOF(groups, 2, 0), uid).value;
            Round(groups, site, st, st2, WithDOF(groups, 1, 0) + WithDOF(groups, 2, 0), tables, uid) && tables[0] == t
  {
    var a, b := WithDOF(groups, 1, 0), WithDOF(groups, 2, 0);
    var st1 := PlaceIndexed(site, groups, st, a, uid).value;
    NotDrained(groups, st1, uid);
    GivenUncrowded(groups, st);
    OthersWait(groups, st, st, 1);
    var ts := IndexedInTurn(t, site, groups, st, a, uid);
    OthersWait(groups, st, st1, 2);
    var us := HostedInTurn(ts[|a|], site, groups, st1, b, uid);
    DegreesApart(groups, 1, 2);
    RoundAfterRound(groups, site, st, st1, PlaceHosted(st1, b, uid).value, a, b, ts, us, uid);
    tables := ts + us[1..];
  }

  lemma DegreesApart(groups: seq<Group>, d: nat, e: nat)
    requires AllSingles(groups) && d != e
    ensures forall i <- WithDOF(groups, d, 0) :: i !in WithDOF(groups, e, 0)
  {
    TodoIs(groups, d);
    TodoIs(groups, e);
  }

  lemma RoundFromDropped(groups: seq<Group>, site: Site, st: PlanState, st': PlanState, todo: seq<nat>, tables: seq<Table>, uid: nat)
    requires AllSingles(groups) && Round(groups, site, Dropped(st), st', todo, tables, uid)
    ensures Round(groups, site, st, st', todo, tables, uid)
  {
  }

  /** All three steps. */
  lemma StepsInTurn(t: Table, site: Site, groups: seq<Group>, st: PlanState, uid: nat) returns (tables: seq<Table>)
    requires Complete(t, site) && AllSingles(groups) && Shaped(st) && st.groups == groups && InStep(t, site, st.avail)
    requires Place(site, groups, st, uid).Done?
    ensures Round(groups, site, st, Place(site, groups, st, uid).value, WithDOF(groups, 1, 0) + WithDOF(groups, 2, 0) + WithDOF(groups, 3, 0), tables, uid)
    ensures tables[0] == t
  {
    var a, b, c := WithDOF(groups, 1, 0), WithDOF(groups, 2, 0), WithDOF(groups, 3, 0);
    TodoIs(groups, 1);
    TodoIs(groups, 2);
    TodoIs(groups, 3);
    var ts := FirstStepsInTurn(t, site, groups, st, uid);
    var st2 := PlaceHosted(PlaceIndexed(site, groups, st, a, uid).value, b, uid).value;
    var t2 := ts[|a + b|];
    DroppedInStep(t2, site, st2.avail);
    DegreesApart(groups, 1, 3);
    DegreesApart(groups, 2, 3);
    OthersWait(groups, st, Dropped(st2), 3);
    var us := AnywhereInTurn(t2, site, groups, Dropped(st2), c, uid);
    RoundFromDropped(groups, site, st2, Place(site, groups, st, uid).value, c, us, uid);
    RoundAfterRound(groups, site, st, st2, Place(site, groups, st, uid).value, a + b, c, ts, us, uid);
    tables := ts + us[1..];
  }

  lemma Joined<T>(a: seq<T>, b: seq<T>, c: seq<T>, d: seq<T>)
    ensures a + (b + c + d) == a + b + c + d
  {
  }

  lemma FixedApart(groups: seq<Group>)
    requires AllSingles(groups)
    ensures forall i <- WithDOF(groups, 0, 0) :: i !in WithDOF(groups, 1, 0) + WithDOF(groups, 2, 0) + WithDOF(groups, 3, 0)
  {
    DegreesApart(groups, 0, 1);
    DegreesApart(groups, 0, 2);
    DegreesApart(groups, 0, 3);
  }

  /** A request for single resources that is planned is planned one resource at a time,
      those with less freedom first: each gets the cheapest that is left by then. Whoever
      gives an index only keeps off the hosts that others wait for. */
  lemma CheapestInTurn(t: Table, site: Site, groups: seq<Group>, uid: nat) returns (order: seq<nat>, tables: seq<Table>)
    requires Complete(t, site) && AllSingles(groups) && Plan(t, site, groups, uid).Done?
    ensures ByFreedom(groups, order) && tables != [] && tables[0] == t
    ensures Turns(groups, site, order, tables, Plan(t, site, groups, uid).value, uid)
  {
    SinglesArePasted(groups);
    PlanParts(t, site, groups, uid);
    OrderIsByFreedom(groups);
    var fixed, others := WithDOF(groups, 0, 0), WithDOF(groups, 1, 0) + WithDOF(groups, 2, 0) + WithDOF(groups, 3, 0);
    var st := Start(t, site, groups, uid).value;
    var ts := StartInTurn(t, site, groups, uid);
    var us := StepsInTurn(ts[|fixed|], site, groups, st, uid);
    FixedApart(groups);
    RoundAfterRound(groups, site, st, st, Place(site, groups, st, uid).value, fixed, others, ts, us, uid);
    Joined(fixed, WithDOF(groups, 1, 0), WithDOF(groups, 2, 0), WithDOF(groups, 3, 0));
    order, tables := Order(groups), ts + us[1..];
  }
}
