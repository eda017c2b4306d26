/** The plan as a whole: every placement step keeps the availability lists in step
    with the table the grants so far lead to, and accounts for every grant. */
module PlanTheorem {
  import opened Resources
  import opened Ledger
  import opened Matchers
  import opened MatchingSteps
  import opened Planner
  import opened PlanCommits
  import opened Waiting

  // ------------------------------------------------------------ accounting

  /** What group i stands for: its picks, or while it waits its fixed requests. */
  function Held(st: PlanState, i: nat): seq<Grant>
    requires Shaped(st) && i < |st.groups|
  {
    if st.chosen[i].Some? then GrantsOf(st.chosen[i].value) else GrantsOf(FixedOf(GroupReqs(st.groups[i])))
  }

  function HeldAll(st: PlanState): seq<seq<Grant>>
    requires Shaped(st)
  {
    seq(|st.groups|, i requires 0 <= i < |st.groups| => Held(st, i))
  }

  function Concat<T>(ss: seq<seq<T>>): seq<T> {
    if ss == [] then [] else ss[0] + Concat(ss[1..])
  }

  function Tally(st: PlanState): seq<Grant>
    requires Shaped(st)
  {
    Concat(HeldAll(st))
  }

  lemma {:induction false} ConcatGrows<T>(ss: seq<seq<T>>, g: nat, new': seq<T>, p: seq<T>)
    requires g < |ss| && multiset(new') == multiset(ss[g] + p)
    ensures multiset(Concat(ss[g := new'])) == multiset(Concat(ss) + p)
  {
    var ss' := ss[g := new'];
    if g == 0 {
      assert ss'[1..] == ss[1..];
      SplicePermutes([], ss[0], new', Concat(ss[1..]), p);
      assert [] + (new' + Concat(ss[1..])) == Concat(ss');
      assert [] + (ss[0] + Concat(ss[1..])) == Concat(ss);
    } else {
      assert ss'[0] == ss[0] && ss'[1..] == ss[1..][g - 1 := new'];
      ConcatGrows(ss[1..], g - 1, new', p);
      SplicePermutes(ss[0], Concat(ss[1..]), Concat(ss'[1..]), [], p);
      assert ss[0] + (Concat(ss'[1..]) + []) == Concat(ss');
      assert ss[0] + (Concat(ss[1..]) + []) == Concat(ss);
    }
  }

  /** When one group trades its fixed requests for its picks, the tally grows by
      exactly what was granted for it. */
  lemma TallyGrows(st: PlanState, st': PlanState, g: nat, picks: seq<Grant>)
    requires Shaped(st) && Shaped(st') && |st'.groups| == |st.groups| && g < |st.groups|
    requires forall i | 0 <= i < |st.groups| && i != g :: Held(st', i) == Held(st, i)
    requires multiset(Held(st', g)) == multiset(Held(st, g) + picks)
    ensures multiset(Tally(st')) == multiset(Tally(st) + picks)
  {
    ConcatGrows(HeldAll(st), g, Held(st', g), picks);
    assert HeldAll(st') == HeldAll(st)[g := Held(st', g)];
  }

  /** The state of a plan that has granted granted: the grants commit, the lists
      are in step with the table they lead to, and each grant is accounted for. */
  ghost predicate PlanOk(t: Table, st: PlanState, granted: seq<Grant>, uid: nat) {
    && Shaped(st)
    && CommitAll(t, granted, uid).Some?
    && AvailOk(st.avail, CommitAll(t, granted, uid).value)
    && multiset(granted) == multiset(Tally(st))
  }

  lemma PermuteAppend<T>(a: seq<T>, b: seq<T>, p: seq<T>)
    requires multiset(a) == multiset(b)
    ensures multiset(a + p) == multiset(b + p)
  {
  }

  /** Accepting a node for a group keeps the plan sound. */
  lemma AcceptOk(t: Table, st: PlanState, g: nat, n: nat, x: seq<Req>, rest: seq<Res>, granted: seq<Grant>, picks: seq<Grant>, uid: nat)
    requires PlanOk(t, st, granted, uid) && g < |st.groups| && n < |st.avail| && st.chosen[g].None?
    requires var t1 := CommitAll(t, granted, uid).value;
             Took(st.avail[n].res, picks, rest, HostKeys(t1, st.avail[n].name), t1, uid)
    requires multiset(GrantsOf(x)) == multiset(GrantsOf(FixedOf(GroupReqs(st.groups[g]))) + picks)
    ensures PlanOk(t, Accept(st, g, n, x, rest), granted + picks, uid)
  {
    var st', t1 := Accept(st, g, n, x, rest), CommitAll(t, granted, uid).value;
    CommitAppend(t, granted, picks, uid);
    ServedKeepsAvail(st.avail, n, picks, rest, t1, uid);
    TallyGrows(st, st', g, picks);
    PermuteAppend(granted, Tally(st), picks);
  }

  // ------------------------------------------------------------ one group

  /** x answers the requests: each keeps what it asks for and is resolved, and a
      list that is not fixed throughout lands on one host. */
  ghost predicate Answers(reqs: seq<Req>, x: seq<Req>) {
    && AllFillIn(reqs, x)
    && (forall q <- x :: Keyed(q))
    && ((forall q <- reqs :: DOF(q) == 0) || SameHost(x))
  }

  lemma PickedOnNode(qs: seq<Req>, picks: seq<Grant>, name: string)
    requires forall q <- qs :: Keyed(q)
    requires multiset(GrantsOf(qs)) == multiset(picks)
    requires forall g <- picks :: g.key.host == name
    ensures forall q <- qs :: q.host == Some(name)
  {
    forall q <- qs
      ensures q.host == Some(name)
    {
      GrantMember(qs, q);
      assert Grant(KeyOf(q), q) in multiset(picks);
    }
  }

  lemma {:induction false} FreeOfMembers(reqs: seq<Req>)
    ensures forall q <- FreeOf(reqs) :: q in reqs && DOF(q) != 0
    ensures forall q <- reqs :: DOF(q) != 0 ==> q in FreeOf(reqs)
  {
    if reqs != [] {
      FreeOfMembers(reqs[1..]);
      assert reqs == [reqs[0]] + reqs[1..];
    }
  }

  lemma FreeAreMoved(reqs: seq<Req>, moved: seq<Req>, name: string)
    requires moved == FreeOf(reqs) || moved == OnHosts(FreeOf(reqs), name)
    requires forall q <- reqs :: q.host.Some? && !(forall p <- reqs :: DOF(p) == 0) ==> q.host == Some(name)
    ensures |moved| == |FreeOf(reqs)| && forall i | 0 <= i < |moved| :: MovedTo(FreeOf(reqs)[i], moved[i])
  {
    FreeOfMembers(reqs);
    forall i | 0 <= i < |moved|
      ensures MovedTo(FreeOf(reqs)[i], moved[i])
    {
      assert FreeOf(reqs)[i] in FreeOf(reqs);
      assert moved[i] == FreeOf(reqs)[i] || moved[i] == OnHost(FreeOf(reqs)[i], name);
    }
  }

  /** Filled lists of a uniform group that land on a node answer the group. */
  lemma FilledAnswers(reqs: seq<Req>, moved: seq<Req>, picks: seq<Req>, name: string)
    requires Uniform(reqs) && AllFillIn(moved, picks) && |moved| == |FreeOf(reqs)|
    requires moved == FreeOf(reqs) || moved == OnHosts(FreeOf(reqs), name)
    requires forall q <- picks :: Keyed(q) && q.host == Some(name)
    requires forall q <- reqs :: q.host.Some? && !(forall p <- reqs :: DOF(p) == 0) ==> q.host == Some(name)
    requires forall q <- reqs :: DOF(q) == 0 ==> Keyed(q)
    ensures Answers(reqs, Fill(reqs, picks))
  {
    var x := Fill(reqs, picks);
    FreeAreMoved(reqs, moved, name);
    FillFillsIn(reqs, moved, picks);
    if !(forall q <- reqs :: DOF(q) == 0) {
      forall i | 0 <= i < |x|
        ensures x[i].host == Some(name)
      {
        assert x[i] in x;
      }
    }
  }

  // ------------------------------------------------------------- the steps

  /** What a placement step leaves: a sound plan in which group g, and only it,
      has been answered. */
  ghost predicate Placed(t: Table, st: PlanState, st': PlanState, g: nat, granted': seq<Grant>, uid: nat) {
    && Shaped(st) && g < |st.groups|
    && PlanOk(t, st', granted', uid)
    && |st'.groups| == |st.groups|
    && (forall i | 0 <= i < |st.groups| && i != g :: st'.groups[i] == st.groups[i] && st'.chosen[i] == st.chosen[i])
    && st'.chosen[g].Some?
    && (st.groups[g].Reqs? ==> Answers(st.groups[g].reqs, st'.chosen[g].value))
    && (st.groups[g].Node? ==> (forall q <- st'.chosen[g].value :: Keyed(q)) && SameHost(st'.chosen[g].value))
  }

  lemma AcceptPlaced(t: Table, st: PlanState, g: nat, n: nat, x: seq<Req>, rest: seq<Res>, granted: seq<Grant>,
                     picks: seq<Grant>, uid: nat)
    requires PlanOk(t, st, granted, uid) && g < |st.groups| && n < |st.avail| && st.chosen[g].None?
    requires var t1 := CommitAll(t, granted, uid).value;
             Took(st.avail[n].res, picks, rest, HostKeys(t1, st.avail[n].name), t1, uid)
    requires multiset(GrantsOf(x)) == multiset(GrantsOf(FixedOf(GroupReqs(st.groups[g]))) + picks)
    requires st.groups[g].Reqs? ==> Answers(st.groups[g].reqs, x)
    requires st.groups[g].Node? ==> (forall q <- x :: Keyed(q)) && SameHost(x)
    ensures Placed(t, st, Accept(st, g, n, x, rest), g, granted + picks, uid)
  {
    AcceptOk(t, st, g, n, x, rest, granted, picks, uid);
  }

  /** The group is pasted and its fixed requests name known classes. */
  ghost predicate Pasted(g: Group) {
    Uniform(GroupReqs(g)) && forall q <- GroupReqs(g) :: DOF(q) == 0 ==> Keyed(q)
  }

  /** Where no host is given, only a moved list decides the node. */
  ghost predicate Hostless(reqs: seq<Req>) { forall q <- reqs :: q.host.None? }

  lemma MovedServes(reqs: seq<Req>, moved: seq<Req>, avail: seq<NodeAvail>, n: nat, t: Table, uid: nat)
    returns (picks: seq<Grant>)
    requires AvailOk(avail, t) && n < |avail| && MatchPartly(moved, avail[n].res, uid).Matched?
    ensures var m := MatchPartly(moved, avail[n].res, uid);
            && AllFillIn(moved, m.reqs)
            && (forall q <- m.reqs :: Keyed(q) && q.host == Some(avail[n].name))
            && Served(avail[n].res, picks, m.rest, HostKeys(t, avail[n].name), t, uid)
            && multiset(GrantsOf(m.reqs)) == multiset(picks)
  {
    var m := MatchPartly(moved, avail[n].res, uid);
    assert avail[n] in avail;
    MatchPartlyServes(moved, avail[n].res, HostKeys(t, avail[n].name), t, uid);
    picks := GrantsOf(FixedOf(moved)) + GrantsOf(Picks(moved, m.reqs));
    FixedAndPicked(moved, m.reqs);
    assert Within(avail[n].res, HostKeys(t, avail[n].name));
    PickedOnNode(m.reqs, picks, avail[n].name);
  }

  lemma FillAccount(reqs: seq<Req>, filled: seq<Req>, picks: seq<Grant>)
    requires |filled| == |FreeOf(reqs)| && multiset(GrantsOf(filled)) == multiset(picks)
    ensures multiset(GrantsOf(Fill(reqs, filled))) == multiset(GrantsOf(FixedOf(reqs)) + picks)
  {
    FillGrants(reqs, filled);
    assert multiset(GrantsOf(FixedOf(reqs)) + GrantsOf(filled))
        == multiset(GrantsOf(FixedOf(reqs))) + multiset(GrantsOf(filled));
  }

  /** The host-only lists are as the caller gave them, with one host each. */
  ghost predicate AsGiven(groups: seq<Group>, st: PlanState) {
    && |st.groups| == |groups|
    && forall i | 0 <= i < |groups| && GroupDOF(groups[i]) == 2 :: st.groups[i] == groups[i] && Uniform(GroupReqs(groups[i]))
  }

  lemma {:induction false} TryIndexedOk(t: Table, groups0: seq<Group>, st: PlanState, g: nat, n: nat,
                                        granted: seq<Grant>, uid: nat) returns (granted': seq<Grant>)
    requires PlanOk(t, st, granted, uid)
    requires g < |st.groups| && Pasted(st.groups[g]) && n <= |st.avail| && st.chosen[g].None?
    requires st.groups[g].Reqs? && Hostless(st.groups[g].reqs)
    requires Uncrowded(groups0) && AsGiven(groups0, st)
    requires TryIndexed(groups0, st, g, n, uid).Done? && !Drained(groups0, TryIndexed(groups0, st, g, n, uid).value.groups)
    ensures Placed(t, st, TryIndexed(groups0, st, g, n, uid).value, g, granted', uid)
    ensures TryIndexed(groups0, st, g, n, uid).value.groups == st.groups
    decreases |st.avail| - n
  {
    var node, reqs := st.avail[n], GroupReqs(st.groups[g]);
    var onNode := OnHosts(FreeOf(reqs), node.name);
    match MatchFixed(onNode, node.res, uid) {
      case None => granted' := TryIndexedOk(t, groups0, st, g, n + 1, granted, uid);
      case Some(rest) =>
        granted' := IndexedAccepted(t, st, g, n, granted, uid);
        var refs := RefsFor(groups0, 0, node.name);
        if refs != [] {
          LookForFirst(groups0, st.groups, node.name, rest, uid);
          var live' := Looked(groups0, st.groups, node.name, rest, uid);
          if MatchPartly(ReadRefs(st.groups, refs), rest, uid).NoMatch? {
            if Drained(groups0, live') { TryIndexedStaysDrained(groups0, st.(groups := live'), g, n + 1, uid); }
            granted' := TryIndexedOk(t, groups0, st, g, n + 1, granted, uid);
          }
        }
    }
  }

  lemma IndexedAccepted(t: Table, st: PlanState, g: nat, n: nat, granted: seq<Grant>, uid: nat)
    returns (granted': seq<Grant>)
    requires PlanOk(t, st, granted, uid)
    requires g < |st.groups| && Pasted(st.groups[g]) && n < |st.avail| && st.chosen[g].None?
    requires st.groups[g].Reqs? && Hostless(st.groups[g].reqs)
    requires MatchFixed(OnHosts(FreeOf(st.groups[g].reqs), st.avail[n].name), st.avail[n].res, uid).Some?
    ensures var reqs, name := st.groups[g].reqs, st.avail[n].name;
            var rest := MatchFixed(OnHosts(FreeOf(reqs), name), st.avail[n].res, uid).value;
            Placed(t, st, Accept(st, g, n, Fill(reqs, OnHosts(FreeOf(reqs), name)), rest), g, granted', uid)
  {
    var node, reqs := st.avail[n], st.groups[g].reqs;
    var onNode := OnHosts(FreeOf(reqs), node.name);
    var rest := MatchFixed(onNode, node.res, uid).value;
    assert GroupReqs(st.groups[g]) == reqs;
    IndexedAnswers(reqs, st.avail, n, CommitAll(t, granted, uid).value, uid);
    AcceptPlaced(t, st, g, n, Fill(reqs, onNode), rest, granted, GrantsOf(onNode), uid);
    granted' := granted + GrantsOf(onNode);
  }

  lemma IndexedAnswers(reqs: seq<Req>, avail: seq<NodeAvail>, n: nat, t: Table, uid: nat)
    requires AvailOk(avail, t) && n < |avail| && Hostless(reqs) && Uniform(reqs)
    requires forall q <- reqs :: DOF(q) == 0 ==> Keyed(q)
    requires MatchFixed(OnHosts(FreeOf(reqs), avail[n].name), avail[n].res, uid).Some?
    ensures var onNode := OnHosts(FreeOf(reqs), avail[n].name);
            var rest := MatchFixed(onNode, avail[n].res, uid).value;
            && Served(avail[n].res, GrantsOf(onNode), rest, HostKeys(t, avail[n].name), t, uid)
            && Answers(reqs, Fill(reqs, onNode))
            && multiset(GrantsOf(Fill(reqs, onNode))) == multiset(GrantsOf(FixedOf(reqs)) + GrantsOf(onNode))
  {
    var onNode := OnHosts(FreeOf(reqs), avail[n].name);
    assert avail[n] in avail;
    MatchFixedServes(onNode, avail[n].res, HostKeys(t, avail[n].name), t, uid);
    FillAccount(reqs, onNode, GrantsOf(onNode));
    MatchFixedAllFixed(onNode, avail[n].res, uid);
    assert AllFillIn(onNode, onNode) by {
      forall i | 0 <= i < |onNode| ensures FillsIn(onNode[i], onNode[i]) { assert onNode[i] in onNode; }
    }
    FilledAnswers(reqs, onNode, onNode, avail[n].name);
  }

  lemma {:induction false} MatchFixedAllFixed(reqs: seq<Req>, avail: seq<Res>, uid: nat)
    requires MatchFixed(reqs, avail, uid).Some?
    ensures forall q <- reqs :: DOF(q) == 0
    decreases |reqs|
  {
    if reqs != [] {
      MatchFixedAllFixed(reqs[1..], TakeAt(avail, FirstFit(avail, reqs[0]), reqs[0], uid), uid);
      forall q <- reqs ensures DOF(q) == 0 { assert q == reqs[0] || q in reqs[1..]; }
    }
  }

  lemma {:induction false} TryAnywhereOk(t: Table, st: PlanState, g: nat, n: nat, granted: seq<Grant>, uid: nat)
    returns (granted': seq<Grant>)
    requires PlanOk(t, st, granted, uid)
    requires g < |st.groups| && Pasted(st.groups[g]) && n <= |st.avail| && st.chosen[g].None?
    requires st.groups[g].Reqs? && Hostless(st.groups[g].reqs)
    requires TryAnywhere(st, g, n, uid).Done?
    ensures Placed(t, st, TryAnywhere(st, g, n, uid).value, g, granted', uid)
    ensures TryAnywhere(st, g, n, uid).value.groups == st.groups
    decreases |st.avail| - n
  {
    var node, reqs := st.avail[n], GroupReqs(st.groups[g]);
    var moved := OnHosts(FreeOf(reqs), node.name);
    var m := MatchPartly(moved, node.res, uid);
    if m.Matched? {
      var picks := MovedServes(reqs, moved, st.avail, n, CommitAll(t, granted, uid).value, uid);
      FillAccount(reqs, m.reqs, picks);
      FilledAnswers(reqs, moved, m.reqs, node.name);
      AcceptPlaced(t, st, g, n, Fill(reqs, m.reqs), m.rest, granted, picks, uid);
      granted' := granted + picks;
    } else {
      granted' := TryAnywhereOk(t, st, g, n + 1, granted, uid);
    }
  }

  lemma SortedServes(moved: seq<Req>, st: PlanState, n: nat, t1: Table, uid: nat) returns (picks: seq<Grant>)
    requires AvailOk(st.avail, t1) && n < |st.avail|
    requires MatchPartly(moved, SortRes(st.avail[n].res), uid).Matched?
    ensures var m := MatchPartly(moved, SortRes(st.avail[n].res), uid);
            && AllFillIn(moved, m.reqs)
            && (forall q <- m.reqs :: Keyed(q) && q.host == Some(st.avail[n].name))
            && Took(st.avail[n].res, picks, m.rest, HostKeys(t1, st.avail[n].name), t1, uid)
            && multiset(GrantsOf(m.reqs)) == multiset(picks)
  {
    var a := st.avail[n].(res := SortRes(st.avail[n].res));
    SortResMembers(st.avail[n].res);
    assert st.avail[n] in st.avail;
    assert AvailOk([a], t1);
    picks := MovedServes(moved, moved, [a], 0, t1, uid);
    var m := MatchPartly(moved, a.res, uid);
    assert Served(a.res, picks, m.rest, HostKeys(t1, a.name), t1, uid);
  }

  lemma PlaceOnHostOk(t: Table, st: PlanState, g: nat, granted: seq<Grant>, uid: nat) returns (granted': seq<Grant>)
    requires PlanOk(t, st, granted, uid)
    requires g < |st.groups| && Pasted(st.groups[g]) && st.chosen[g].None? && st.groups[g].Reqs?
    requires PlaceOnHost(st, g, uid).Done?
    ensures Placed(t, st, PlaceOnHost(st, g, uid).value, g, granted', uid)
  {
    var reqs := GroupReqs(st.groups[g]);
    var free := FreeOf(reqs);
    var n := NodeIndex(st.avail, free[0].host.value);
    var m := MatchPartly(free, SortRes(st.avail[n].res), uid);
    var picks := SortedServes(free, st, n, CommitAll(t, granted, uid).value, uid);
    FillAccount(reqs, m.reqs, picks);
    HostedUniform(reqs);
    var done := Fill(reqs, m.reqs);
    FilledAnswers(reqs, free, m.reqs, st.avail[n].name);
    AcceptPlaced(t, st, g, n, done, m.rest, granted, picks, uid);
    granted' := granted + picks;
    WrittenBackOk(t, st, Accept(st, g, n, done, m.rest), g, Reqs(done), granted', uid);
  }

  /** Writing picks into an answered group changes no account. */
  lemma WrittenBackOk(t: Table, st: PlanState, st': PlanState, g: nat, written: Group, granted: seq<Grant>, uid: nat)
    requires Placed(t, st, st', g, granted, uid)
    ensures Placed(t, st, st'.(groups := st'.groups[g := written]), g, granted, uid)
  {
    assert HeldAll(st'.(groups := st'.groups[g := written])) == HeldAll(st');
  }

  lemma HostedUniform(reqs: seq<Req>)
    requires Uniform(reqs) && FreeOf(reqs) != []
    ensures forall q <- reqs :: q.host == FreeOf(reqs)[0].host
  {
    FreeOfMembers(reqs);
    var f := FreeOf(reqs)[0];
    assert f in FreeOf(reqs);
    var j :| 0 <= j < |reqs| && reqs[j] == f;
    forall q <- reqs
      ensures q.host == f.host
    {
      var i :| 0 <= i < |reqs| && reqs[i] == q;
    }
  }

  // ------------------------------------------------------------ whole nodes

  /** Every GPU that wants scanouts has some, so each resource matches itself. */
  ghost predicate SelfMatching(t: Table) { forall k <- t :: TypeSearchMatch(t[k].attrs, AsRequest(t[k])) }

  /** A pick matches the resource it names. */
  ghost predicate Fit(t: Table, q: Req) { Keyed(q) && KeyOf(q) in t && TypeSearchMatch(t[KeyOf(q)].attrs, q) }

  /** Picks for a whole node match, or all resources match themselves. */
  ghost predicate AllFit(t: Table, x: seq<Req>) { SelfMatching(t) || forall q <- x :: Fit(t, q) }

  lemma {:induction false} WholeNodeCommits(rs: seq<Res>, t: Table, uid: nat)
    requires SafeTable(t) && Backed(rs, t) && forall r <- rs :: TypeSearchMatch(r.attrs, AsRequest(r))
    ensures CommitAll(t, GrantsOf(AsRequests(rs)), uid).Some?
    ensures forall q <- AsRequests(rs) :: Keyed(q)
    ensures forall q <- AsRequests(rs) :: exists r <- rs :: q == AsRequest(r)
    decreases |rs|
  {
    if rs != [] {
      var r, rest := rs[0], rs[1..];
      assert r in rs && CanAllocate(r, AsRequest(r));
      var t1 := t[r.Key() := Grow(r, AsRequest(r), uid)];
      GrowSafe(r, AsRequest(r), uid);
      forall x <- rest
        ensures x.Key() in t1 && t1[x.Key()] == x && IsFree(x)
      {
        assert x in rs;
        var j :| 0 <= j < |rest| && rest[j] == x;
        assert rs[j + 1] == x;
      }
      WholeNodeCommits(rest, t1, uid);
    }
  }

  lemma {:induction false} AsRequestsFixed(rs: seq<Res>)
    ensures forall q <- AsRequests(rs) :: DOF(q) == 0
    ensures forall g <- GrantsOf(AsRequests(rs)) :: exists r <- rs :: g.key == r.Key()
  {
    if rs != [] {
      AsRequestsFixed(rs[1..]);
      assert rs == [rs[0]] + rs[1..];
      var q := AsRequest(rs[0]);
      assert GrantsOf([q] + AsRequests(rs[1..])) == [Grant(rs[0].Key(), q)] + GrantsOf(AsRequests(rs[1..]));
    }
  }

  lemma WholeNodeTook(avail: seq<NodeAvail>, n: nat, t: Table, uid: nat)
    requires SafeTable(t) && AvailOk(avail, t) && n < |avail|
    requires forall r <- avail[n].res :: TypeSearchMatch(r.attrs, AsRequest(r))
    ensures Took(avail[n].res, GrantsOf(AsRequests(avail[n].res)), [], HostKeys(t, avail[n].name), t, uid)
    ensures (forall q <- AsRequests(avail[n].res) :: Keyed(q)) && SameHost(AsRequests(avail[n].res))
  {
    var a := avail[n];
    assert a in avail;
    WholeNodeCommits(a.res, t, uid);
    AsRequestsFixed(a.res);
    forall i | 0 <= i < |AsRequests(a.res)|
      ensures AsRequests(a.res)[i].host == Some(a.name)
    {
      assert AsRequests(a.res)[i] in AsRequests(a.res);
    }
  }

  lemma {:induction false} TryWholeNodeOk(t: Table, site: Site, st: PlanState, g: nat, wants: seq<Req>, n: nat,
                                          granted: seq<Grant>, uid: nat) returns (granted': seq<Grant>)
    requires SafeTable(t) && PlanOk(t, st, granted, uid)
    requires g < |st.groups| && n <= |st.avail| && st.chosen[g].None? && st.groups[g].Node?
    requires TryWholeNode(site, st, g, wants, n).Done?
    requires var x := TryWholeNode(site, st, g, wants, n).value.chosen[g]; x.Some? ==> AllFit(t, x.value)
    ensures Placed(t, st, TryWholeNode(site, st, g, wants, n).value, g, granted', uid)
    ensures TryWholeNode(site, st, g, wants, n).value.groups == st.groups
    decreases |st.avail| - n
  {
    if IsWhole(site, st.avail[n]) && HasWanted(wants, st.avail[n].res) {
      granted' := WholeNodeAccepted(t, st, g, n, granted, uid);
    } else {
      granted' := TryWholeNodeOk(t, site, st, g, wants, n + 1, granted, uid);
    }
  }

  /** Picks that match what they name are picked from resources that match themselves. */
  lemma PickedMatch(t: Table, t1: Table, rs: seq<Res>)
    requires SafeTable(t1) && SameHardware(t, t1) && Backed(rs, t1) && AllFit(t, AsRequests(rs))
    ensures forall r <- rs :: TypeSearchMatch(r.attrs, AsRequest(r))
  {
    if SelfMatching(t) { StaysSelfMatching(t, t1); }
    forall r <- rs
      ensures TypeSearchMatch(r.attrs, AsRequest(r))
    {
      assert r.Key() in t1 && t1[r.Key()] == r && t[r.Key()].attrs == r.attrs;
      RequestedAs(rs, r);
      if !SelfMatching(t) { assert Fit(t, AsRequest(r)); }
    }
  }

  lemma {:induction false} RequestedAs(rs: seq<Res>, r: Res)
    requires r in rs
    ensures AsRequest(r) in AsRequests(rs)
  {
    if r != rs[0] { RequestedAs(rs[1..], r); }
  }

  lemma WholeNodeAccepted(t: Table, st: PlanState, g: nat, n: nat, granted: seq<Grant>, uid: nat)
    returns (granted': seq<Grant>)
    requires SafeTable(t) && PlanOk(t, st, granted, uid)
    requires g < |st.groups| && n < |st.avail| && st.chosen[g].None? && st.groups[g].Node?
    requires AllFit(t, AsRequests(st.avail[n].res))
    ensures Placed(t, st, Accept(st, g, n, AsRequests(st.avail[n].res), []), g, granted', uid)
  {
    var x, t1 := AsRequests(st.avail[n].res), CommitAll(t, granted, uid).value;
    CommitKeepsSafe(t, granted, uid);
    assert st.avail[n] in st.avail;
    PickedMatch(t, t1, st.avail[n].res);
    WholeNodeTook(st.avail, n, t1, uid);
    var picks := GrantsOf(x);
    assert FixedOf(GroupReqs(st.groups[g])) == [] && GrantsOf([]) + picks == picks;
    AcceptPlaced(t, st, g, n, x, [], granted, picks, uid);
    granted' := granted + picks;
  }

  lemma StaysSelfMatching(t: Table, t': Table)
    requires SafeTable(t') && SelfMatching(t) && SameHardware(t, t')
    ensures SelfMatching(t')
  {
    forall k <- t'
      ensures TypeSearchMatch(t'[k].attrs, AsRequest(t'[k]))
    {
      assert k in t && TypeSearchMatch(t[k].attrs, AsRequest(t[k]));
    }
  }

  // ----------------------------------------------------------------- loops

  ghost predicate AnsweredGroup(g: Group, x: seq<Req>) {
    if g.Reqs? then Answers(g.reqs, x) else (forall q <- x :: Keyed(q)) && SameHost(x)
  }

  /** A plan under way: groups that wait are as they were, the others answered. */
  ghost predicate Going(t: Table, groups: seq<Group>, st: PlanState, granted: seq<Grant>, uid: nat) {
    && PlanOk(t, st, granted, uid) && |st.groups| == |groups|
    && (forall i | 0 <= i < |groups| :: Pasted(groups[i]))
    && (forall i | 0 <= i < |groups| ::
          if st.chosen[i].None? then st.groups[i] == groups[i] else AnsweredGroup(groups[i], st.chosen[i].value))
  }

  ghost predicate Pending(st: PlanState, todo: seq<nat>)
    requires Shaped(st)
  {
    && InRange(todo, |st.groups|)
    && (forall i | 0 <= i < |todo| :: st.chosen[todo[i]].None?)
    && (forall i, j | 0 <= i < j < |todo| :: todo[i] < todo[j])
  }

  lemma SortedGoing(t: Table, site: Site, groups: seq<Group>, st: PlanState, granted: seq<Grant>, uid: nat)
    requires Going(t, groups, st, granted, uid)
    ensures Going(t, groups, st.(avail := SortAvail(site, st.avail)), granted, uid)
  {
    SortAvailOk(site, st.avail, CommitAll(t, granted, uid).value);
    assert HeldAll(st.(avail := SortAvail(site, st.avail))) == HeldAll(st);
  }

  lemma PlacedGoing(t: Table, groups: seq<Group>, st: PlanState, st': PlanState, todo: seq<nat>,
                    granted: seq<Grant>, granted': seq<Grant>, uid: nat)
    requires Going(t, groups, st, granted, uid) && todo != [] && Pending(st, todo)
    requires Placed(t, st, st', todo[0], granted', uid)
    ensures Going(t, groups, st', granted', uid) && Pending(st', todo[1..])
    ensures forall i | 0 <= i < |groups| && i !in todo :: st'.chosen[i] == st.chosen[i]
    ensures st'.chosen[todo[0]].Some?
  {
    var rest := todo[1..];
    assert forall i | 0 <= i < |rest| :: rest[i] == todo[i + 1];
    assert todo[0] in todo;
  }

  /** Every group in todo is answered in st', and no other group is touched. */
  ghost predicate AllPlaced(st: PlanState, st': PlanState, todo: seq<nat>) {
    && Shaped(st) && Shaped(st') && |st'.groups| == |st.groups| && InRange(todo, |st.groups|)
    && (forall i | 0 <= i < |st.groups| && i !in todo :: st'.chosen[i] == st.chosen[i])
    && (forall i | 0 <= i < |todo| :: st'.chosen[todo[i]].Some?)
  }

  lemma AllPlacedStep(st: PlanState, st1: PlanState, st': PlanState, todo: seq<nat>)
    requires Shaped(st) && todo != [] && Pending(st, todo) && Shaped(st1) && |st1.groups| == |st.groups|
    requires forall i | 0 <= i < |st.groups| && i !in todo :: st1.chosen[i] == st.chosen[i]
    requires st1.chosen[todo[0]].Some?
    requires AllPlaced(st1, st', todo[1..])
    ensures AllPlaced(st, st', todo)
  {
    var rest := todo[1..];
    assert forall i | 1 <= i < |todo| :: todo[i] == rest[i - 1];
    forall i | 0 <= i < |st.groups| && i !in todo
      ensures st'.chosen[i] == st.chosen[i]
    {
      assert i !in rest;
    }
    assert todo[0] !in rest;
  }

  lemma NotDrainedFirst(site: Site, groups: seq<Group>, st: PlanState, todo: seq<nat>, uid: nat)
    requires Shaped(st) && |st.groups| == |groups| && InRange(todo, |st.groups|) && todo != []
    requires PlaceIndexed(site, groups, st, todo, uid).Done? && !Drained(groups, PlaceIndexed(site, groups, st, todo, uid).value.groups)
    ensures var first := TryIndexed(groups, st.(avail := SortAvail(site, st.avail)), todo[0], 0, uid);
            first.Done? && !Drained(groups, first.value.groups)
  {
    var first := TryIndexed(groups, st.(avail := SortAvail(site, st.avail)), todo[0], 0, uid);
    if Drained(groups, first.value.groups) { PlaceIndexedStaysDrained(site, groups, first.value, todo[1..], uid); }
  }

  lemma {:induction false} PlaceIndexedOk(t: Table, site: Site, groups: seq<Group>, st: PlanState, todo: seq<nat>,
                                          granted: seq<Grant>, uid: nat) returns (granted': seq<Grant>)
    requires Going(t, groups, st, granted, uid) && Pending(st, todo)
    requires (todo != [] ==> Uncrowded(groups)) && (forall i | 0 <= i < |groups| && GroupDOF(groups[i]) == 2 :: st.chosen[i].None? && i !in todo)
    requires forall i | 0 <= i < |todo| :: groups[todo[i]].Reqs? && Hostless(groups[todo[i]].reqs)
    requires PlaceIndexed(site, groups, st, todo, uid).Done? && !Drained(groups, PlaceIndexed(site, groups, st, todo, uid).value.groups)
    ensures Going(t, groups, PlaceIndexed(site, groups, st, todo, uid).value, granted', uid)
    ensures AllPlaced(st, PlaceIndexed(site, groups, st, todo, uid).value, todo)
    decreases |todo|
  {
    granted' := granted;
    if todo != [] {
      var sorted := st.(avail := SortAvail(site, st.avail));
      SortedGoing(t, site, groups, st, granted, uid);
      assert sorted.groups[todo[0]] == groups[todo[0]];
      NotDrainedFirst(site, groups, st, todo, uid);
      var granted1 := TryIndexedOk(t, groups, sorted, todo[0], 0, granted, uid);
      var st1 := TryIndexed(groups, sorted, todo[0], 0, uid).value;
      PlacedGoing(t, groups, sorted, st1, todo, granted, granted1, uid);
      granted' := PlaceIndexedOk(t, site, groups, st1, todo[1..], granted1, uid);
      AllPlacedStep(st, st1, PlaceIndexed(site, groups, st, todo, uid).value, todo);
    }
  }

  lemma {:induction false} PlaceHostedOk(t: Table, groups: seq<Group>, st: PlanState, todo: seq<nat>,
                                         granted: seq<Grant>, uid: nat) returns (granted': seq<Grant>)
    requires Going(t, groups, st, granted, uid) && Pending(st, todo)
    requires forall i | 0 <= i < |todo| :: groups[todo[i]].Reqs?
    requires PlaceHosted(st, todo, uid).Done?
    ensures Going(t, groups, PlaceHosted(st, todo, uid).value, granted', uid)
    ensures AllPlaced(st, PlaceHosted(st, todo, uid).value, todo)
    decreases |todo|
  {
    granted' := granted;
    if todo != [] {
      assert st.groups[todo[0]] == groups[todo[0]];
      var granted1 := PlaceOnHostOk(t, st, todo[0], granted, uid);
      var st1 := PlaceOnHost(st, todo[0], uid).value;
      PlacedGoing(t, groups, st, st1, todo, granted, granted1, uid);
      granted' := PlaceHostedOk(t, groups, st1, todo[1..], granted1, uid);
      AllPlacedStep(st, st1, PlaceHosted(st, todo, uid).value, todo);
    }
  }

  /** The picks for whole nodes match what they name. */
  ghost predicate NodesFit(t: Table, groups: seq<Group>, chosen: seq<Option<seq<Req>>>) {
    |chosen| == |groups| && forall i | 0 <= i < |groups| && groups[i].Node? && chosen[i].Some? :: AllFit(t, chosen[i].value)
  }

  lemma {:induction false} TryWholeKeeps(site: Site, st: PlanState, g: nat, wants: seq<Req>, n: nat)
    requires Shaped(st) && g < |st.groups| && n <= |st.avail| && TryWholeNode(site, st, g, wants, n).Done?
    ensures forall i | 0 <= i < |st.chosen| && i != g :: TryWholeNode(site, st, g, wants, n).value.chosen[i] == st.chosen[i]
    decreases |st.avail| - n
  {
    if !(IsWhole(site, st.avail[n]) && HasWanted(wants, st.avail[n].res)) { TryWholeKeeps(site, st, g, wants, n + 1); }
  }

  lemma {:induction false} TryAnywhereKeeps(st: PlanState, g: nat, n: nat, uid: nat)
    requires Shaped(st) && g < |st.groups| && n <= |st.avail| && TryAnywhere(st, g, n, uid).Done?
    ensures forall i | 0 <= i < |st.chosen| && i != g :: TryAnywhere(st, g, n, uid).value.chosen[i] == st.chosen[i]
    decreases |st.avail| - n
  {
    if !MatchPartly(OnHosts(FreeOf(GroupReqs(st.groups[g])), st.avail[n].name), st.avail[n].res, uid).Matched? {
      TryAnywhereKeeps(st, g, n + 1, uid);
    }
  }

  /** Placing some groups leaves what has been chosen for the others. */
  lemma {:induction false} PlaceAnywhereKeeps(site: Site, st: PlanState, todo: seq<nat>, uid: nat, i: nat)
    requires Shaped(st) && InRange(todo, |st.groups|) && PlaceAnywhere(site, st, todo, uid).Done?
    requires i < |st.chosen| && i !in todo
    ensures PlaceAnywhere(site, st, todo, uid).value.chosen[i] == st.chosen[i]
    decreases |todo|
  {
    if todo != [] {
      var g, sorted := todo[0], st.(avail := SortAvail(site, st.avail));
      var st1;
      if sorted.groups[g].Node? {
        TryWholeKeeps(site, sorted, g, sorted.groups[g].wants, 0);
        st1 := TryWholeNode(site, sorted, g, sorted.groups[g].wants, 0).value;
      } else {
        TryAnywhereKeeps(sorted, g, 0, uid);
        st1 := TryAnywhere(sorted, g, 0, uid).value;
      }
      PlaceAnywhereKeeps(site, st1, todo[1..], uid, i);
    }
  }

  lemma {:induction false} PlaceAnywhereOk(t: Table, site: Site, groups: seq<Group>, st: PlanState, todo: seq<nat>,
                                           granted: seq<Grant>, uid: nat) returns (granted': seq<Grant>)
    requires SafeTable(t) && Going(t, groups, st, granted, uid) && Pending(st, todo)
    requires forall i | 0 <= i < |todo| :: groups[todo[i]].Reqs? ==> Hostless(groups[todo[i]].reqs)
    requires PlaceAnywhere(site, st, todo, uid).Done? && NodesFit(t, groups, PlaceAnywhere(site, st, todo, uid).value.chosen)
    ensures Going(t, groups, PlaceAnywhere(site, st, todo, uid).value, granted', uid)
    ensures AllPlaced(st, PlaceAnywhere(site, st, todo, uid).value, todo)
    decreases |todo|
  {
    granted' := granted;
    if todo != [] {
      var g, sorted := todo[0], st.(avail := SortAvail(site, st.avail));
      SortedGoing(t, site, groups, st, granted, uid);
      assert sorted.groups[g] == groups[g] && groups[g] in groups;
      var granted1, st1;
      if groups[g].Node? {
        assert g !in todo[1..];
        PlaceAnywhereKeeps(site, TryWholeNode(site, sorted, g, groups[g].wants, 0).value, todo[1..], uid, g);
        granted1 := TryWholeNodeOk(t, site, sorted, g, groups[g].wants, 0, granted, uid);
        st1 := TryWholeNode(site, sorted, g, groups[g].wants, 0).value;
      } else {
        granted1 := TryAnywhereOk(t, sorted, g, 0, granted, uid);
        st1 := TryAnywhere(sorted, g, 0, uid).value;
      }
      PlacedGoing(t, groups, sorted, st1, todo, granted, granted1, uid);
      granted' := PlaceAnywhereOk(t, site, groups, st1, todo[1..], granted1, uid);
      AllPlacedStep(st, st1, PlaceAnywhere(site, st, todo, uid).value, todo);
    }
  }
}
