/** The look-ahead of index-only lists writes what it matches into the requests that
    wait for a host, whether or not it leads to anything. When only one request of the
    first list that waits for a host waits for it, this cannot spoil a plan: a
    look-ahead either writes back what was there, or it resolves that request, and
    then nothing is left to be placed of its list and the plan fails later on. */
module Waiting {
  import opened Resources
  import opened Matchers
  import opened MatchingSteps
  import opened Planner

  ghost predicate SameHost(qs: seq<Req>) { forall i, j | 0 <= i < |qs| && 0 <= j < |qs| :: qs[i].host == qs[j].host }

  /** A pasted list is fixed throughout, or names no host, or names one for all. */
  ghost predicate Uniform(reqs: seq<Req>) { (forall q <- reqs :: DOF(q) == 0) || SameHost(reqs) }

  lemma {:induction false} MaxDOFIsMax(reqs: seq<Req>)
    ensures forall q <- reqs :: DOF(q) <= MaxDOF(reqs)
    ensures reqs != [] ==> exists q <- reqs :: DOF(q) == MaxDOF(reqs)
    ensures MaxDOF(reqs) <= 3
  {
    if reqs != [] {
      MaxDOFIsMax(reqs[1..]);
      assert reqs == [reqs[0]] + reqs[1..];
      if MaxDOF(reqs) != DOF(reqs[0]) {
        var q :| q in reqs[1..] && DOF(q) == MaxDOF(reqs[1..]);
        assert q in reqs;
      } else {
        assert reqs[0] in reqs;
      }
    }
  }

  // ------------------------------------------------------------ who waits

  /** Request p of group g waits for a resource of this host. */
  ghost predicate Waits(groups: seq<Group>, r: Ref, host: string) {
    && r.g < |groups| && GroupDOF(groups[r.g]) == 2
    && r.p < |GroupReqs(groups[r.g])|
    && DOF(GroupReqs(groups[r.g])[r.p]) == 2 && GroupReqs(groups[r.g])[r.p].host == Some(host)
  }

  lemma {:induction false} RefsInAre(reqs: seq<Req>, g: nat, p: nat, host: string)
    requires p <= |reqs|
    ensures forall r :: r in RefsIn(reqs, g, p, host)
                   <==> r.g == g && p <= r.p < |reqs| && DOF(reqs[r.p]) == 2 && reqs[r.p].host == Some(host)
    decreases |reqs| - p
  {
    if p < |reqs| { RefsInAre(reqs, g, p + 1, host); }
  }

  /** The list of those who wait is complete. */
  lemma {:induction false} RefsForAre(groups: seq<Group>, g: nat, host: string)
    requires g <= |groups|
    ensures forall r :: r in RefsFor(groups, g, host) <==> g <= r.g && Waits(groups, r, host)
    decreases |groups| - g
  {
    if g < |groups| {
      RefsForAre(groups, g + 1, host);
      RefsInAre(GroupReqs(groups[g]), g, 0, host);
    }
  }

  /** Of the first list that waits for a host, only one request does. */
  ghost predicate Uncrowded(groups: seq<Group>) {
    forall host, j | 1 <= j < |RefsFor(groups, 0, host)| :: RefsFor(groups, 0, host)[j].g != RefsFor(groups, 0, host)[0].g
  }

  /** The rest of the first list that waits for a host is fixed. */
  lemma OneWaits(groups: seq<Group>, host: string)
    requires Uncrowded(groups) && RefsFor(groups, 0, host) != []
    requires var r := RefsFor(groups, 0, host)[0]; r.g < |groups| ==> Uniform(GroupReqs(groups[r.g]))
    ensures var r := RefsFor(groups, 0, host)[0];
            && Waits(groups, r, host)
            && forall p | 0 <= p < |GroupReqs(groups[r.g])| && p != r.p :: DOF(GroupReqs(groups[r.g])[p]) == 0
  {
    var refs := RefsFor(groups, 0, host);
    var r := refs[0];
    RefsForAre(groups, 0, host);
    assert r in refs;
    var reqs := GroupReqs(groups[r.g]);
    MaxDOFIsMax(reqs);
    forall p | 0 <= p < |reqs|
      ensures DOF(reqs[p]) == 0 || p == r.p
    {
      assert reqs[p] in reqs && reqs[r.p] in reqs;
      if DOF(reqs[p]) != 0 {
        assert Waits(groups, Ref(r.g, p), host);
        assert Ref(r.g, p) in refs;
      }
    }
  }

  // -------------------------------------------------------- one look-ahead

  /** Group i is host-only, but nothing is left of it to be placed. */
  ghost predicate DrainedAt(groups: seq<Group>, live: seq<Group>, i: nat) {
    && i < |groups| && i < |live| && GroupDOF(groups[i]) == 2
    && forall p | 0 <= p < |GroupReqs(live[i])| :: DOF(GroupReqs(live[i])[p]) == 0
  }

  ghost predicate Drained(groups: seq<Group>, live: seq<Group>) { exists i :: DrainedAt(groups, live, i) }

  /** What a match leaves: fixed requests stay as they are, and either nothing has
      been matched or the first request is resolved. */
  lemma {:induction false} AssignLeaves(reqs: seq<Req>, avail: seq<Res>, uid: nat)
    ensures var m := AssignFree(reqs, avail, uid);
            && |m.reqs| == |reqs|
            && (forall j | 0 <= j < |reqs| && DOF(reqs[j]) == 0 :: m.reqs[j] == reqs[j])
            && (reqs != [] ==> DOF(m.reqs[0]) == 0 || (!m.Matched? && m.reqs == reqs))
    decreases |reqs|
  {
    if reqs != [] && DOF(reqs[0]) == 0 {
      AssignLeaves(reqs[1..], avail, uid);
    } else if reqs != [] && reqs[0].cls.Some? && FirstFit(avail, reqs[0]) < |avail| {
      var i := FirstFit(avail, reqs[0]);
      AssignLeaves(reqs[1..], TakeAt(avail, i, Resolve(reqs[0], avail[i].Key()), uid), uid);
    }
  }

  lemma MatchLeaves(reqs: seq<Req>, avail: seq<Res>, uid: nat)
    ensures var m := MatchPartly(reqs, avail, uid);
            && |m.reqs| == |reqs|
            && (forall j | 0 <= j < |reqs| && DOF(reqs[j]) == 0 :: m.reqs[j] == reqs[j])
            && (reqs != [] ==> DOF(m.reqs[0]) == 0 || (!m.Matched? && m.reqs == reqs))
  {
    if MatchFixed(FixedOf(reqs), avail, uid).Some? {
      AssignLeaves(reqs, ByClass(MatchFixed(FixedOf(reqs), avail, uid).value), uid);
    }
  }

  /** Writing back what was read changes nothing. */
  lemma {:induction false} WriteBack(live: seq<Group>, refs: seq<Ref>)
    ensures WriteRefs(live, refs, ReadRefs(live, refs)) == live
    decreases |refs|
  {
    if refs != [] {
      var r := refs[0];
      assert ReadRefs(live, refs)[1..] == ReadRefs(live, refs[1..]);
      if r.g < |live| && live[r.g].Reqs? && r.p < |live[r.g].reqs| {
        assert live[r.g].reqs[r.p := live[r.g].reqs[r.p]] == live[r.g].reqs;
      }
      assert WriteRef(live, r, ReadRef(live, r)) == live;
      WriteBack(live, refs[1..]);
    }
  }

  /** What is written into a group with nothing to be placed is resolved. */
  ghost predicate WritesResolved(live: seq<Group>, refs: seq<Ref>, qs: seq<Req>, i: nat)
    requires i < |live|
  {
    && |qs| == |refs|
    && forall j | 0 <= j < |refs| && refs[j].g == i && refs[j].p < |GroupReqs(live[i])| :: DOF(qs[j]) == 0
  }

  lemma {:induction false} WritesKeepDrained(groups: seq<Group>, live: seq<Group>, refs: seq<Ref>, qs: seq<Req>, i: nat)
    requires DrainedAt(groups, live, i) && WritesResolved(live, refs, qs, i)
    ensures DrainedAt(groups, WriteRefs(live, refs, qs), i)
    decreases |refs|
  {
    if refs != [] {
      var live' := WriteRef(live, refs[0], qs[0]);
      assert DrainedAt(groups, live', i);
      forall j | 0 <= j < |refs[1..]| && refs[1..][j].g == i && refs[1..][j].p < |GroupReqs(live'[i])|
        ensures DOF(qs[1..][j]) == 0
      {
        assert refs[1..][j] == refs[j + 1] && qs[1..][j] == qs[j + 1];
      }
      WritesKeepDrained(groups, live', refs[1..], qs[1..], i);
    }
  }

  /** Once the only open request of a list is written, nothing is left of it. */
  lemma FirstWriteDrains(groups: seq<Group>, live: seq<Group>, refs: seq<Ref>, qs: seq<Req>)
    requires refs != [] && |qs| == |refs| && |live| == |groups| && DOF(qs[0]) == 0
    requires forall j | 1 <= j < |refs| :: refs[j].g != refs[0].g
    requires var r := refs[0]; r.g < |groups| && live[r.g] == groups[r.g] && GroupDOF(groups[r.g]) == 2
    requires var r := refs[0]; forall p | 0 <= p < |GroupReqs(groups[r.g])| && p != r.p :: DOF(GroupReqs(groups[r.g])[p]) == 0
    ensures Drained(groups, WriteRefs(live, refs, qs))
  {
    var r := refs[0];
    var live' := WriteRef(live, r, qs[0]);
    var reqs := GroupReqs(groups[r.g]);
    assert GroupReqs(live'[r.g]) == (if r.p < |reqs| then reqs[r.p := qs[0]] else reqs);
    forall j | 0 <= j < |refs[1..]|
      ensures refs[1..][j].g != r.g
    {
      assert refs[1..][j] == refs[j + 1];
    }
    WritesKeepDrained(groups, live', refs[1..], qs[1..], r.g);
  }

  /** What a look-ahead for a host leaves of the caller's requests. */
  function Looked(groups: seq<Group>, live: seq<Group>, host: string, rest: seq<Res>, uid: nat): (live': seq<Group>)
    ensures |live'| == |live|
  {
    var refs := RefsFor(groups, 0, host);
    WriteRefs(live, refs, MatchPartly(ReadRefs(live, refs), rest, uid).reqs)
  }

  /** What has been drained stays so. */
  lemma LookKeepsDrained(groups: seq<Group>, live: seq<Group>, host: string, rest: seq<Res>, uid: nat)
    requires Drained(groups, live)
    ensures Drained(groups, Looked(groups, live, host, rest, uid))
  {
    var i :| DrainedAt(groups, live, i);
    var refs := RefsFor(groups, 0, host);
    var qs := ReadRefs(live, refs);
    MatchLeaves(qs, rest, uid);
    WritesKeepDrained(groups, live, refs, MatchPartly(qs, rest, uid).reqs, i);
  }

  /** A look-ahead for the requests that wait for a host either fails and changes
      nothing, or leaves nothing to be placed of the first list that waits. */
  lemma LookForFirst(groups: seq<Group>, live: seq<Group>, host: string, rest: seq<Res>, uid: nat)
    requires |live| == |groups| && Uncrowded(groups) && RefsFor(groups, 0, host) != []
    requires forall i | 0 <= i < |groups| && GroupDOF(groups[i]) == 2 :: live[i] == groups[i] && Uniform(GroupReqs(groups[i]))
    ensures var look := MatchPartly(ReadRefs(live, RefsFor(groups, 0, host)), rest, uid);
            var live' := Looked(groups, live, host, rest, uid);
            Drained(groups, live') || (!look.Matched? && live' == live)
  {
    var refs := RefsFor(groups, 0, host);
    var qs := ReadRefs(live, refs);
    var look := MatchPartly(qs, rest, uid);
    RefsForAre(groups, 0, host);
    assert refs[0] in refs;
    OneWaits(groups, host);
    MatchLeaves(qs, rest, uid);
    if DOF(look.reqs[0]) == 0 {
      FirstWriteDrains(groups, live, refs, look.reqs);
    } else {
      WriteBack(live, refs);
    }
  }

  // ------------------------------------------------------- the phases

  /** What has been drained stays so while index-only lists are placed. */
  lemma {:induction false} TryIndexedStaysDrained(groups: seq<Group>, st: PlanState, g: nat, n: nat, uid: nat)
    requires Shaped(st) && g < |st.groups| && n <= |st.avail| && |st.groups| == |groups|
    requires Drained(groups, st.groups) && TryIndexed(groups, st, g, n, uid).Done?
    ensures Drained(groups, TryIndexed(groups, st, g, n, uid).value.groups)
    decreases |st.avail| - n
  {
    var node, reqs := st.avail[n], GroupReqs(st.groups[g]);
    match MatchFixed(OnHosts(FreeOf(reqs), node.name), node.res, uid) {
      case None => TryIndexedStaysDrained(groups, st, g, n + 1, uid);
      case Some(rest) =>
        var refs := RefsFor(groups, 0, node.name);
        if refs != [] {
          LookKeepsDrained(groups, st.groups, node.name, rest, uid);
          var live' := Looked(groups, st.groups, node.name, rest, uid);
          if MatchPartly(ReadRefs(st.groups, refs), rest, uid).NoMatch? {
            TryIndexedStaysDrained(groups, st.(groups := live'), g, n + 1, uid);
          }
        }
    }
  }

  lemma {:induction false} PlaceIndexedStaysDrained(site: Site, groups: seq<Group>, st: PlanState, todo: seq<nat>, uid: nat)
    requires Shaped(st) && |st.groups| == |groups| && InRange(todo, |st.groups|)
    requires Drained(groups, st.groups) && PlaceIndexed(site, groups, st, todo, uid).Done?
    ensures Drained(groups, PlaceIndexed(site, groups, st, todo, uid).value.groups)
    decreases |todo|
  {
    if todo != [] {
      var sorted := st.(avail := SortAvail(site, st.avail));
      TryIndexedStaysDrained(groups, sorted, todo[0], 0, uid);
      PlaceIndexedStaysDrained(site, groups, TryIndexed(groups, sorted, todo[0], 0, uid).value, todo[1..], uid);
    }
  }

  /** A host-only list of which nothing is left to be placed ends the plan. */
  lemma {:induction false} DrainedFails(groups: seq<Group>, st: PlanState, todo: seq<nat>, i: nat, uid: nat)
    requires Shaped(st) && InRange(todo, |st.groups|) && i in todo && DrainedAt(groups, st.groups, i)
    ensures PlaceHosted(st, todo, uid).Raised?
    decreases |todo|
  {
    if todo[0] == i {
      NothingFree(GroupReqs(st.groups[i]));
    } else if PlaceOnHost(st, todo[0], uid).Done? {
      assert i in todo[1..];
      DrainedFails(groups, PlaceOnHost(st, todo[0], uid).value, todo[1..], i, uid);
    }
  }
}
