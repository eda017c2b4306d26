/** The look-ahead of index-only lists writes into the caller's requests even when
    it rejects a node. A request that mixes such lists with host-only lists can
    therefore be planned and still not be committed. */
module LookAhead {
  import opened Resources
  import opened Ledger
  import opened Matchers
  import opened MatchingSteps
  import opened Planner
  import opened PlanCommits
  import opened PlanTheorem
  import opened PlanSound

  // Node a has GPU 0, biased to be handed out last, and GPU 1; node b has GPU 0.
  function A0(a: string): Key { Key(GPU, 0, a) }
  function A1(a: string): Key { Key(GPU, 1, a) }
  function B0(b: string): Key { Key(GPU, 0, b) }

  function Gpu(k: Key, bias: int): Res { Res(Attrs(k, None, 1, bias, None, None, 0, None), [], false, []) }

  function Ra0(a: string): Res { Gpu(A0(a), 5) }
  function Ra1(a: string): Res { Gpu(A1(a), 0) }
  function Rb0(b: string): Res { Gpu(B0(b), 0) }

  function Cluster(a: string, b: string): Table { map[A0(a) := Ra0(a), A1(a) := Ra1(a), B0(b) := Rb0(b)] }

  function TwoNodes(a: string, b: string): Site {
    Site([A0(a), A1(a), B0(b)], map[a := NodeInfo(0, 0), b := NodeInfo(1, 1)], map[a := 6, b := 0], {}, {})
  }

  function Ask(idx: Option<int>, host: Option<string>): Req { Req(Some(GPU), idx, host, None, false, None, None) }

  /** GPU 0 of any node, and two GPUs of node a. */
  function MixedRequest(a: string): seq<Group> {
    [Reqs([Ask(Some(0), None)]), Reqs([Ask(None, Some(a)), Ask(None, Some(a))])]
  }

  lemma RequestIsPasted(a: string)
    ensures PasteAll(MixedRequest(a)) == MixedRequest(a)
  {
    var g := MixedRequest(a);
    var p, q := g[0].reqs, g[1].reqs;
    assert p[1..] == [] && FirstHost(p) == FirstHost([]) == None;
    assert FirstHost(q) == Some(a);
    assert OnHosts(q, a) == q;
    assert Paste(p) == p && Paste(q) == q;
  }

  lemma RequestDegrees(a: string)
    ensures GroupDOF(MixedRequest(a)[0]) == 1 && GroupDOF(MixedRequest(a)[1]) == 2
    ensures FixedOf(MixedRequest(a)[0].reqs) == [] && FixedOf(MixedRequest(a)[1].reqs) == []
  {
    var p, q := MixedRequest(a)[0].reqs, MixedRequest(a)[1].reqs;
    assert p[1..] == [] && q[1..] == [q[0]] && [q[0]][1..] == [];
    assert MaxDOF(p) == 1;
    assert MaxDOF([q[0]]) == 2 && MaxDOF(q) == 2;
    assert FixedOf([q[0]]) == [];
  }

  lemma RequestIsValid(a: string, b: string, uid: nat)
    requires a != b
    ensures PasteAll(MixedRequest(a)) == MixedRequest(a)
    ensures GroupDOF(MixedRequest(a)[0]) == 1 && GroupDOF(MixedRequest(a)[1]) == 2
    ensures FixedOf(MixedRequest(a)[0].reqs) == [] && FixedOf(MixedRequest(a)[1].reqs) == []
    ensures Validate(Cluster(a, b), TwoNodes(a, b), MixedRequest(a)) == None
  {
    var g := MixedRequest(a);
    RequestIsPasted(a);
    RequestDegrees(a);
    FixedAllPair(g[0], g[1]);
    assert g == [g[0], g[1]];
    assert OneHost(g[0].reqs) && OneHost(g[1].reqs) by {
      assert g[0].reqs[1..] == [] && FirstHost(g[0].reqs) == FirstHost([]) == None && FirstHost(g[1].reqs) == Some(a);
    }
  }

  lemma FixedAllPair(a: Group, b: Group)
    requires FixedOf(GroupReqs(a)) == [] && FixedOf(GroupReqs(b)) == []
    ensures FixedAll([a, b]) == []
  {
    assert [a, b][1..] == [b] && [b][1..] == [];
    assert FixedAll([b]) == [];
  }

  lemma FreePoolIsAll(a: string, b: string, uid: nat)
    requires a != b
    ensures FreePool(Cluster(a, b), TwoNodes(a, b)) == Cluster(a, b)
    ensures FixedByDOF(MixedRequest(a)) == []
  {
    var g := MixedRequest(a);
    RequestDegrees(a);
    assert g == [g[0], g[1]];
    FixedPairDOF(g[0], g[1], 0);
    FixedPairDOF(g[0], g[1], 1);
    FixedPairDOF(g[0], g[1], 2);
    FixedPairDOF(g[0], g[1], 3);
  }

  lemma FixedPairDOF(a: Group, b: Group, d: nat)
    requires FixedOf(GroupReqs(a)) == [] && FixedOf(GroupReqs(b)) == []
    ensures FixedWithDOF([a, b], d) == []
  {
    assert [a, b][1..] == [b] && [b][1..] == [];
    assert FixedWithDOF([b], d) == [];
  }

  lemma StartAvail(a: string, b: string, uid: nat)
    requires a != b
    ensures Hosts(TwoNodes(a, b).order, TwoNodes(a, b)) == [a, b]
    ensures FreeOn(TwoNodes(a, b).order, Cluster(a, b), a) == [Ra0(a), Ra1(a)]
    ensures FreeOn(TwoNodes(a, b).order, Cluster(a, b), b) == [Rb0(b)]
  {
    var o, s, t := TwoNodes(a, b).order, TwoNodes(a, b), Cluster(a, b);
    assert o[..2] == [A0(a), A1(a)] && [A0(a), A1(a)][..1] == [A0(a)] && [A0(a)][..0] == [];
    assert Hosts([A0(a)], s) == [a];
    assert Hosts([A0(a), A1(a)], s) == [a];
    FreeOnThree(A0(a), A1(a), B0(b), t, a);
    FreeOnThree(A0(a), A1(a), B0(b), t, b);
  }

  lemma FreeOnThree(k: Key, l: Key, m: Key, t: Table, host: string)
    ensures FreeOn([k, l, m], t, host)
         == FreeOne(k, t, host) + (FreeOne(l, t, host) + FreeOne(m, t, host))
  {
    assert [k, l, m][1..] == [l, m] && [l, m][1..] == [m] && [m][1..] == [];
    assert FreeOn([m], t, host) == FreeOne(m, t, host) + FreeOn([], t, host);
    assert FreeOn([l, m], t, host) == FreeOne(l, t, host) + FreeOn([m], t, host);
  }

  function FreeOne(k: Key, t: Table, host: string): seq<Res> {
    if k.host == host && k in t && IsFree(t[k]) then [t[k]] else []
  }

  lemma SortedStart(a: string, b: string, uid: nat)
    requires a != b
    ensures SortAvail(TwoNodes(a, b), [NodeAvail(a, [Ra0(a), Ra1(a)]), NodeAvail(b, [Rb0(b)])])
         == [NodeAvail(a, [Ra1(a), Ra0(a)]), NodeAvail(b, [Rb0(b)])]
    ensures SortRes([Ra1(a), Ra0(a)]) == [Ra1(a), Ra0(a)]
  {
    SortPair(Ra0(a), Ra1(a));
    SortPair(Ra1(a), Ra0(a));
    SortOne(Rb0(b));
    SortNodePair(TwoNodes(a, b), NodeAvail(a, [Ra0(a), Ra1(a)]), NodeAvail(b, [Rb0(b)]));
  }

  lemma SortOne(r: Res)
    ensures SortRes([r]) == [r]
  {
    assert [r][1..] == [];
  }

  lemma SortPair(r: Res, s: Res)
    ensures SortRes([r, s]) == if Weight(r) <= Weight(s) then [r, s] else [s, r]
  {
    assert [r, s][1..] == [s] && [s][1..] == [];
    SortOne(s);
    assert InsertRes(r, []) == [r];
  }

  lemma SortNodePair(site: Site, x: NodeAvail, y: NodeAvail)
    ensures var x', y' := x.(res := SortRes(x.res)), y.(res := SortRes(y.res));
            SortAvail(site, [x, y]) == if NodeLeq(site, x', y') then [x', y'] else [y', x']
  {
    var x', y' := x.(res := SortRes(x.res)), y.(res := SortRes(y.res));
    assert [x, y][1..] == [y] && [y][1..] == [];
    assert SortAvail(site, [y]) == InsertNode(site, y', []) == [y'];
    assert InsertNode(site, x', []) == [x'];
  }

  /** Both requests for node a wait for it; none waits for node b. */
  lemma BothWait(a: string, b: string, uid: nat)
    requires a != b
    ensures RefsFor(MixedRequest(a), 0, a) == [Ref(1, 0), Ref(1, 1)]
    ensures RefsFor(MixedRequest(a), 0, b) == []
  {
    RequestIsValid(a, b, uid);
    var g := MixedRequest(a);
    assert RefsIn(g[1].reqs, 1, 2, a) == [] && RefsIn(g[1].reqs, 1, 1, a) == [Ref(1, 1)];
    assert RefsIn(g[1].reqs, 1, 2, b) == [] && RefsIn(g[1].reqs, 1, 1, b) == [];
    assert RefsFor(g, 2, a) == [] && RefsFor(g, 1, a) == [Ref(1, 0), Ref(1, 1)];
    assert RefsFor(g, 2, b) == [] && RefsFor(g, 1, b) == [];
  }

  /** What the rejected look-ahead leaves in the caller's requests. */
  function Spoiled(a: string): seq<Group> {
    [Reqs([Ask(Some(0), None)]), Reqs([Ask(Some(1), Some(a)), Ask(None, Some(a))])]
  }

  lemma OnlyGpus(r: Res, s: Res)
    requires r.Key().cls == GPU && s.Key().cls == GPU
    ensures ByClass([r]) == [r] && ByClass([r, s]) == [r, s]
  {
    assert [r][1..] == [] && [r, s][1..] == [s] && [s][1..] == [];
    forall c: ResClass
      ensures OfClass([s], c) == (if c == GPU then [s] else []) && OfClass([r], c) == (if c == GPU then [r] else [])
      ensures OfClass([r, s], c) == if c == GPU then [r, s] else []
    {
    }
  }

  /** An exclusive GPU nobody has. */
  predicate Single(r: Res) { r.Key().cls == GPU && r.attrs.limit == 1 && r.owners == [] && !r.shared }

  lemma SecondIsTaken(q: Req, r: Res, s: Res, uid: nat)
    requires DOF(q) == 0 && Single(s) && !CanAllocate(r, q) && CanAllocate(s, q)
    ensures MatchFixed([q], [r, s], uid) == Some([r])
  {
    FirstFitIs([r, s], q, 1);
    assert TakeAt([r, s], 1, q, uid) == [r];
    assert [q][1..] == [];
  }

  lemma OnlyOneIsTaken(q: Req, r: Res, uid: nat)
    requires DOF(q) == 0 && Single(r) && CanAllocate(r, q)
    ensures MatchFixed([q], [r], uid) == Some([])
  {
    FirstFitIs([r], q, 0);
    assert TakeAt([r], 0, q, uid) == [] && [q][1..] == [];
  }

  lemma OneForTwo(w: Req, r: Res, uid: nat)
    requires DOF(w) != 0 && w.cls.Some? && Single(r) && CanAllocate(r, w)
    ensures MatchPartly([w, w], [r], uid) == NoMatch([Resolve(w, r.Key()), w])
  {
    assert [w, w][1..] == [w] && [w][1..] == [];
    assert FixedOf([w]) == [] && FixedOf([w, w]) == [];
    OnlyGpus(r, r);
    FirstFitIs([r], w, 0);
    var p := Resolve(w, r.Key());
    assert TakeAt([r], 0, p, uid) == [];
    assert AssignFree([w], [], uid) == NoMatch([w]);
    assert [p] + [w] == [p, w];
  }

  lemma OneFromTwo(w: Req, r: Res, s: Res, uid: nat)
    requires DOF(w) != 0 && w.cls.Some? && Single(r) && s.Key().cls == GPU && CanAllocate(r, w)
    ensures MatchPartly([w], [r, s], uid) == Matched([Resolve(w, r.Key())], [s])
  {
    assert [w][1..] == [] && FixedOf([w]) == [];
    OnlyGpus(r, s);
    FirstFitIs([r, s], w, 0);
    var p := Resolve(w, r.Key());
    assert TakeAt([r, s], 0, p, uid) == [s];
    assert AssignFree([], [s], uid) == Matched([], [s]);
    assert After([p], Matched([], [s])) == Matched([p], [s]) by { assert [p] + [] == [p]; }
    assert AssignFree([w], [r, s], uid) == After([p], AssignFree([w][1..], [s], uid));
  }

  function Begin(a: string, b: string): PlanState {
    PlanState(MixedRequest(a), [NodeAvail(a, [Ra1(a), Ra0(a)]), NodeAvail(b, [Rb0(b)])], [None, None])
  }

  function AfterIndexed(a: string, b: string): PlanState {
    PlanState(Spoiled(a), [NodeAvail(a, [Ra1(a), Ra0(a)]), NodeAvail(b, [])], [Some([Ask(Some(0), Some(b))]), None])
  }

  /** A node that serves the list but not those who wait for it is passed over. */
  lemma PassedOver(groups0: seq<Group>, st: PlanState, g: nat, n: nat, uid: nat, rest: seq<Res>, live: seq<Req>)
    requires Shaped(st) && g < |st.groups| && n < |st.avail|
    requires MatchFixed(OnHosts(FreeOf(GroupReqs(st.groups[g])), st.avail[n].name), st.avail[n].res, uid) == Some(rest)
    requires RefsFor(groups0, 0, st.avail[n].name) != []
    requires MatchPartly(ReadRefs(st.groups, RefsFor(groups0, 0, st.avail[n].name)), rest, uid) == NoMatch(live)
    ensures TryIndexed(groups0, st, g, n, uid)
         == TryIndexed(groups0, st.(groups := WriteRefs(st.groups, RefsFor(groups0, 0, st.avail[n].name), live)), g, n + 1, uid)
  {
  }

  lemma TakenAtOnce(groups0: seq<Group>, st: PlanState, g: nat, n: nat, uid: nat, rest: seq<Res>)
    requires Shaped(st) && g < |st.groups| && n < |st.avail|
    requires MatchFixed(OnHosts(FreeOf(GroupReqs(st.groups[g])), st.avail[n].name), st.avail[n].res, uid) == Some(rest)
    requires RefsFor(groups0, 0, st.avail[n].name) == []
    ensures var reqs := GroupReqs(st.groups[g]);
            TryIndexed(groups0, st, g, n, uid)
            == Done(Accept(st, g, n, Fill(reqs, OnHosts(FreeOf(reqs), st.avail[n].name)), rest))
  {
  }

  lemma OneFree(q: Req, p: Req)
    requires DOF(q) != 0
    ensures FreeOf([q]) == [q] && Fill([q], [p]) == [p]
  {
    assert [q][1..] == [] && [p][1..] == [];
    assert Fill([q], [p]) == [p] + Fill([], []);
  }

  lemma WritesSpoil(a: string, b: string, uid: nat)
    requires a != b
    ensures ReadRefs(MixedRequest(a), [Ref(1, 0), Ref(1, 1)]) == [Ask(None, Some(a)), Ask(None, Some(a))]
    ensures WriteRefs(MixedRequest(a), [Ref(1, 0), Ref(1, 1)], [Ask(Some(1), Some(a)), Ask(None, Some(a))]) == Spoiled(a)
  {
    var refs, found := [Ref(1, 0), Ref(1, 1)], [Ask(Some(1), Some(a)), Ask(None, Some(a))];
    assert refs[1..] == [Ref(1, 1)] && found[1..] == [found[1]] && [Ref(1, 1)][1..] == [] && [found[1]][1..] == [];
    var g0, w := MixedRequest(a)[0], found[1];
    assert [w, w][0 := found[0]] == found && found[1 := w] == found;
    assert [g0, Reqs([w, w])][1 := Reqs(found)] == [g0, Reqs(found)] && [g0, Reqs(found)][1 := Reqs(found)] == [g0, Reqs(found)];
    assert MixedRequest(a) == [g0, Reqs([w, w])] && Spoiled(a) == [g0, Reqs(found)];
    assert WriteRef(MixedRequest(a), Ref(1, 0), found[0]) == Spoiled(a);
    assert WriteRef(Spoiled(a), Ref(1, 1), found[1]) == Spoiled(a);
    assert WriteRefs(Spoiled(a), [Ref(1, 1)], [found[1]]) == WriteRefs(Spoiled(a), [], []);
  }

  lemma NodeARejects(a: string, b: string, uid: nat)
    requires a != b
    ensures TryIndexed(MixedRequest(a), Begin(a, b), 0, 0, uid)
         == TryIndexed(MixedRequest(a), Begin(a, b).(groups := Spoiled(a)), 0, 1, uid)
  {
    var q, onA, w := Ask(Some(0), None), Ask(Some(0), Some(a)), Ask(None, Some(a));
    OneFree(q, onA);
    assert OnHosts([q], a) == [onA];
    BothWait(a, b, uid);
    WritesSpoil(a, b, uid);
    SecondIsTaken(onA, Ra1(a), Ra0(a), uid);
    OneForTwo(w, Ra1(a), uid);
    PassedOver(MixedRequest(a), Begin(a, b), 0, 0, uid, [Ra1(a)], [Resolve(w, A1(a)), w]);
  }

  lemma NodeBTakes(a: string, b: string, uid: nat)
    requires a != b
    ensures TryIndexed(MixedRequest(a), Begin(a, b).(groups := Spoiled(a)), 0, 1, uid) == Done(AfterIndexed(a, b))
  {
    var q, onB, st := Ask(Some(0), None), Ask(Some(0), Some(b)), Begin(a, b).(groups := Spoiled(a));
    OneFree(q, onB);
    assert OnHosts([q], b) == [onB];
    BothWait(a, b, uid);
    OnlyOneIsTaken(onB, Rb0(b), uid);
    TakenAtOnce(MixedRequest(a), st, 0, 1, uid, []);
    assert Accept(st, 0, 1, [onB], []) == AfterIndexed(a, b);
  }

  /** The plan uses GPU 1 of node a twice. */
  function DoublePlan(a: string, b: string): seq<seq<Req>> {
    [[Ask(Some(0), Some(b))], [Ask(Some(1), Some(a)), Ask(Some(1), Some(a))]]
  }

  lemma HostedStep(a: string, b: string, uid: nat)
    requires a != b
    ensures PlaceOnHost(AfterIndexed(a, b), 1, uid).Done?
    ensures var st := PlaceOnHost(AfterIndexed(a, b), 1, uid).value;
            st.chosen == [Some(DoublePlan(a, b)[0]), Some(DoublePlan(a, b)[1])]
  {
    var st, w, p := AfterIndexed(a, b), Ask(None, Some(a)), Ask(Some(1), Some(a));
    OneFree(w, p);
    FillSecond(p, w, p);
    SortedStart(a, b, uid);
    OneFromTwo(w, Ra1(a), Ra0(a), uid);
    assert NodeIndex(st.avail, a) == 0;
    assert GroupReqs(st.groups[1]) == [p, w];
  }

  lemma FillSecond(f: Req, q: Req, p: Req)
    requires DOF(f) == 0 && DOF(q) != 0
    ensures FreeOf([f, q]) == [q] && Fill([f, q], [p]) == [f, p]
  {
    OneFree(q, p);
    assert [f, q][1..] == [q];
  }

  function DoubleGrants(a: string, b: string): seq<Grant> {
    [Grant(B0(b), Ask(Some(0), Some(b))), Grant(A1(a), Ask(Some(1), Some(a))), Grant(A1(a), Ask(Some(1), Some(a)))]
  }

  /** A request that is planned but cannot be committed: the second of the two
      picks of the same exclusive GPU is refused after the first two went through. */
  lemma MixedPlanCannotCommit(a: string, b: string, uid: nat)
    requires a != b
    ensures SafeTable(Cluster(a, b)) && NoDuplicates(TwoNodes(a, b).order) && SelfMatching(Cluster(a, b))
    ensures Spoilable(PasteAll(MixedRequest(a)))
    ensures Plan(Cluster(a, b), TwoNodes(a, b), MixedRequest(a), uid) == Done(DoublePlan(a, b))
    ensures GrantsOf(Concat(DoublePlan(a, b))) == DoubleGrants(a, b)
    ensures CommitAll(Cluster(a, b), DoubleGrants(a, b), uid).None?
    ensures CommitAll(Cluster(a, b), DoubleGrants(a, b)[..2], uid).Some?
  {
    ClusterIsFine(a, b);
    IsMixed(a, b, uid);
    MixedPlanIs(a, b, uid);
    GrantsOfDouble(a, b, uid);
    DoubleIsRefused(Cluster(a, b), DoubleGrants(a, b)[0], DoubleGrants(a, b)[1], uid);
  }

  lemma ClusterIsFine(a: string, b: string)
    requires a != b
    ensures SafeTable(Cluster(a, b)) && NoDuplicates(TwoNodes(a, b).order) && SelfMatching(Cluster(a, b))
  {
  }

  lemma IsMixed(a: string, b: string, uid: nat)
    requires a != b
    ensures Spoilable(PasteAll(MixedRequest(a)))
  {
    RequestIsValid(a, b, uid);
    BothWait(a, b, uid);
    assert MixedRequest(a)[0] in MixedRequest(a);
    var refs := RefsFor(MixedRequest(a), 0, a);
    assert 1 <= 1 < |refs| && refs[1].g == refs[0].g;
  }

  lemma GrantsOfDouble(a: string, b: string, uid: nat)
    requires a != b
    ensures GrantsOf(Concat(DoublePlan(a, b))) == DoubleGrants(a, b)
  {
    var x, y := Ask(Some(0), Some(b)), Ask(Some(1), Some(a));
    assert DoublePlan(a, b)[1..] == [[y, y]] && [[y, y]][1..] == [];
    assert Concat([[y, y]]) == [y, y] && Concat(DoublePlan(a, b)) == [x, y, y];
    assert [x, y, y][1..] == [y, y] && [y, y][1..] == [y] && [y][1..] == [];
    assert GrantsOf([y]) == [Grant(A1(a), y)] && GrantsOf([y, y]) == [Grant(A1(a), y), Grant(A1(a), y)];
  }

  /** An exclusive resource serves one request, not two. */
  lemma DoubleIsRefused(t: Table, g: Grant, h: Grant, uid: nat)
    requires g.key in t && h.key in t && g.key != h.key
    requires CanAllocate(t[g.key], g.req) && CanAllocate(t[h.key], h.req) && Single(t[h.key])
    ensures CommitAll(t, [g, h, h], uid).None?
    ensures CommitAll(t, [g, h, h][..2], uid).Some?
  {
    var t1 := t[g.key := Grow(t[g.key], g.req, uid)];
    var t2 := t1[h.key := Grow(t1[h.key], h.req, uid)];
    assert [g, h, h][1..] == [h, h] && [h, h][1..] == [h];
    assert CommitAll(t2, [h], uid) == None && CommitAll(t1, [h, h], uid) == None;
    assert [g, h, h][..2] == [g, h] && [g, h][1..] == [h] && [h][1..] == [];
    assert CommitAll(t1, [h], uid) == Some(t2);
  }

  function StartState(a: string, b: string): PlanState {
    PlanState(MixedRequest(a), [NodeAvail(a, [Ra0(a), Ra1(a)]), NodeAvail(b, [Rb0(b)])], [None, None])
  }

  lemma StartIs(a: string, b: string, uid: nat)
    requires a != b
    ensures Start(Cluster(a, b), TwoNodes(a, b), MixedRequest(a), uid) == Done(StartState(a, b))
  {
    RequestIsValid(a, b, uid);
    FreePoolIsAll(a, b, uid);
    StartAvail(a, b, uid);
    assert GrantsOf([]) == [];
    assert AvailOn(TwoNodes(a, b).order, Cluster(a, b), [a, b]) == StartState(a, b).avail;
    assert StartChosen(MixedRequest(a)) == [None, None];
  }

  lemma Todo(groups: seq<Group>, d: nat)
    requires |groups| == 2
    ensures WithDOF(groups, d, 0)
         == (if GroupDOF(groups[0]) == d then [0] else []) + (if GroupDOF(groups[1]) == d then [1] else [])
  {
    assert WithDOF(groups, d, 2) == [];
    assert WithDOF(groups, d, 1) == if GroupDOF(groups[1]) == d then [1] else [];
  }

  lemma MixedPlanIs(a: string, b: string, uid: nat)
    requires a != b
    ensures Plan(Cluster(a, b), TwoNodes(a, b), MixedRequest(a), uid) == Done(DoublePlan(a, b))
  {
    RequestIsValid(a, b, uid);
    StartIs(a, b, uid);
    PlacedDouble(a, b, uid);
  }

  lemma OneIndexed(site: Site, groups0: seq<Group>, st: PlanState, g: nat, uid: nat, st': PlanState)
    requires Shaped(st) && g < |st.groups|
    requires TryIndexed(groups0, st.(avail := SortAvail(site, st.avail)), g, 0, uid) == Done(st')
    ensures PlaceIndexed(site, groups0, st, [g], uid) == Done(st')
  {
    assert [g][1..] == [];
  }

  lemma OneHosted(st: PlanState, g: nat, uid: nat)
    requires Shaped(st) && g < |st.groups| && PlaceOnHost(st, g, uid).Done?
    ensures PlaceHosted(st, [g], uid) == PlaceOnHost(st, g, uid)
  {
    assert [g][1..] == [];
  }

  lemma IndexedPlaced(a: string, b: string, uid: nat)
    requires a != b
    ensures WithDOF(MixedRequest(a), 1, 0) == [0]
    ensures PlaceIndexed(TwoNodes(a, b), MixedRequest(a), StartState(a, b), [0], uid) == Done(AfterIndexed(a, b))
  {
    RequestIsValid(a, b, uid);
    Todo(MixedRequest(a), 1);
    SortedStart(a, b, uid);
    NodeARejects(a, b, uid);
    NodeBTakes(a, b, uid);
    OneIndexed(TwoNodes(a, b), MixedRequest(a), StartState(a, b), 0, uid, AfterIndexed(a, b));
  }

  lemma HostedPlaced(a: string, b: string, uid: nat) returns (st: PlanState)
    requires a != b
    ensures WithDOF(MixedRequest(a), 2, 0) == [1] && WithDOF(MixedRequest(a), 3, 0) == []
    ensures PlaceHosted(AfterIndexed(a, b), [1], uid) == Done(st) && Shaped(st)
    ensures st.chosen == [Some(DoublePlan(a, b)[0]), Some(DoublePlan(a, b)[1])]
  {
    RequestIsValid(a, b, uid);
    Todo(MixedRequest(a), 2);
    Todo(MixedRequest(a), 3);
    HostedStep(a, b, uid);
    OneHosted(AfterIndexed(a, b), 1, uid);
    st := PlaceOnHost(AfterIndexed(a, b), 1, uid).value;
  }

  lemma PlacedDouble(a: string, b: string, uid: nat)
    requires a != b
    ensures Place(TwoNodes(a, b), MixedRequest(a), StartState(a, b), uid).Done?
    ensures Chosen(Place(TwoNodes(a, b), MixedRequest(a), StartState(a, b), uid).value.chosen) == DoublePlan(a, b)
  {
    IndexedPlaced(a, b, uid);
    var st2 := HostedPlaced(a, b, uid);
    PlacedIs(TwoNodes(a, b), MixedRequest(a), StartState(a, b), AfterIndexed(a, b), st2, uid);
    assert Chosen(st2.chosen) == DoublePlan(a, b);
  }

  lemma PlacedIs(site: Site, groups: seq<Group>, st: PlanState, st1: PlanState, st2: PlanState, uid: nat)
    requires Shaped(st) && |st.groups| == |groups| && Shaped(st1) && |st1.groups| == |groups|
    requires InRange(WithDOF(groups, 1, 0), |groups|) && InRange(WithDOF(groups, 2, 0), |groups|)
    requires PlaceIndexed(site, groups, st, WithDOF(groups, 1, 0), uid) == Done(st1)
    requires PlaceHosted(st1, WithDOF(groups, 2, 0), uid) == Done(st2) && WithDOF(groups, 3, 0) == []
    ensures Place(site, groups, st, uid) == Done(st2.(avail := DropEmpty(st2.avail)))
  {
  }
}
