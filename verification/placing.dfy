/** When placing a list succeeds, where it is placed, and how it fails. Each step tries the
    nodes in order and stops at the first that does. */
module Placing {
  import opened Resources
  import opened Ledger
  import opened Matchers
  import opened MatchingSteps
  import opened Planner

  // ----------------------------------------------------------- one matching

  /** A request can have one of the resources. */
  ghost predicate SomeServes(rs: seq<Res>, q: Req) { exists r <- rs :: CanAllocate(r, q) }

  lemma FoundExactly(rs: seq<Res>, q: Req)
    ensures FirstFit(rs, q) < |rs| <==> SomeServes(rs, q)
  {
    if FirstFit(rs, q) < |rs| { assert rs[FirstFit(rs, q)] in rs; }
  }

  /** A single request is matched exactly if one of the resources can serve it. */
  lemma OneMatched(q: Req, rs: seq<Res>, uid: nat)
    requires q.cls.Some?
    ensures DOF(q) == 0 ==> (MatchFixed([q], rs, uid).Some? <==> SomeServes(rs, q))
    ensures DOF(q) != 0 ==> (MatchPartly([q], rs, uid).Matched? <==> SomeServes(rs, q))
    ensures DOF(q) != 0 ==> !MatchPartly([q], rs, uid).Unhandled?
  {
    assert [q][1..] == [];
    FoundExactly(rs, q);
    if DOF(q) != 0 {
      assert FixedOf([q]) == [];
      ByClassMembers(rs);
      assert SomeServes(ByClass(rs), q) <==> SomeServes(rs, q);
      FoundExactly(ByClass(rs), q);
      LastAssigned(q, ByClass(rs), uid);
    }
  }

  lemma LastAssigned(q: Req, rs: seq<Res>, uid: nat)
    requires DOF(q) != 0 && q.cls.Some?
    ensures AssignFree([q], rs, uid).Matched? <==> FirstFit(rs, q) < |rs|
    ensures !AssignFree([q], rs, uid).Unhandled?
  {
    assert [q][1..] == [];
  }

  /** Requests of known classes never stop the matcher for good. */
  lemma {:induction false} KnownAssigned(reqs: seq<Req>, avail: seq<Res>, uid: nat)
    requires forall q <- reqs :: q.cls.Some?
    ensures !AssignFree(reqs, avail, uid).Unhandled?
    decreases |reqs|
  {
    if reqs != [] {
      assert reqs[0] in reqs;
      var i := FirstFit(avail, reqs[0]);
      if DOF(reqs[0]) == 0 {
        KnownAssigned(reqs[1..], avail, uid);
      } else if i < |avail| {
        KnownAssigned(reqs[1..], TakeAt(avail, i, Resolve(reqs[0], avail[i].Key()), uid), uid);
      }
    }
  }

  lemma KnownHandled(reqs: seq<Req>, avail: seq<Res>, uid: nat)
    requires forall q <- reqs :: q.cls.Some?
    ensures !MatchPartly(reqs, avail, uid).Unhandled?
  {
    var left := MatchFixed(FixedOf(reqs), avail, uid);
    if left.Some? { KnownAssigned(reqs, ByClass(left.value), uid); }
  }

  /** What serving the first of some fixed requests comes to: it names a free resource of
      the node, which then serves it. */
  lemma FirstFixed(q: Req, avail: seq<Res>, ks: set<Key>, t: Table)
    requires Mirrors(avail, ks, t) && DOF(q) == 0
    ensures FirstFit(avail, q) < |avail| <==> Keyed(q) && KeyOf(q) in ks && CanAllocate(t[KeyOf(q)], q)
    ensures FirstFit(avail, q) < |avail| ==> avail[FirstFit(avail, q)].Key() == KeyOf(q)
  {
    FoundExactly(avail, q);
    var i := FirstFit(avail, q);
    if i < |avail| {
      FixedIsKeyed(avail[i], q);
      assert avail[i] in avail;
    }
    if Keyed(q) && KeyOf(q) in ks && CanAllocate(t[KeyOf(q)], q) { assert t[KeyOf(q)] in avail; }
  }

  /** Where the list has exactly what is free on the node, fixed requests can be served
      exactly if all name resources of the node and, in turn, can have them. */
  lemma {:induction false} FixedServedExactly(reqs: seq<Req>, avail: seq<Res>, ks: set<Key>, t: Table, uid: nat)
    requires Mirrors(avail, ks, t)
    ensures MatchFixed(reqs, avail, uid).Some? <==>
              (forall q <- reqs :: Keyed(q) && KeyOf(q) in ks) && CommitAll(t, GrantsOf(reqs), uid).Some?
    decreases |reqs|
  {
    if reqs != [] {
      var q, i := reqs[0], FirstFit(avail, reqs[0]);
      assert reqs == [q] + reqs[1..] && q in reqs;
      if DOF(q) == 0 && Keyed(q) { FirstFixed(q, avail, ks, t); }
      if DOF(q) == 0 && i < |avail| {
        FirstFixed(q, avail, ks, t);
        var t' := t[KeyOf(q) := Grow(t[KeyOf(q)], q, uid)];
        assert avail[i] in avail;
        TakeStaysMirror(avail, i, q, uid, ks, t, t');
        FixedServedExactly(reqs[1..], TakeAt(avail, i, q, uid), ks, t', uid);
      }
    }
  }

  // ------------------------------------------------- lists placed anywhere

  /** What matching a list on a node gives. */
  function OnNodeOf(reqs: seq<Req>, node: NodeAvail, uid: nat): Match {
    MatchPartly(OnHosts(FreeOf(reqs), node.name), node.res, uid)
  }

  /** No node from n up to m can serve the list. */
  ghost predicate NoneBefore(reqs: seq<Req>, avail: seq<NodeAvail>, n: nat, m: nat, uid: nat)
    requires m <= |avail|
  {
    forall j | n <= j < m :: OnNodeOf(reqs, avail[j], uid).NoMatch?
  }

  lemma AnywhereStep(st: PlanState, g: nat, n: nat, uid: nat)
    requires Shaped(st) && g < |st.groups| && n < |st.avail|
    ensures var reqs := GroupReqs(st.groups[g]);
            var found := OnNodeOf(reqs, st.avail[n], uid);
            TryAnywhere(st, g, n, uid) ==
              match found
              case Matched(qs, rest) => Done(Accept(st, g, n, Fill(reqs, qs), rest))
              case NoMatch(_) => TryAnywhere(st, g, n + 1, uid)
              case Unhandled(_) => Raised(InternalError)
  {
  }

  lemma NoneBeforeNext(reqs: seq<Req>, avail: seq<NodeAvail>, n: nat, m: nat, uid: nat)
    requires n < m <= |avail| && NoneBefore(reqs, avail, n + 1, m, uid) && OnNodeOf(reqs, avail[n], uid).NoMatch?
    ensures NoneBefore(reqs, avail, n, m, uid)
  {
  }

  /** The list goes to the first node that can serve it. If no node can, it is refused
      as the user's error; if before that a node comes to a request of an unknown class,
      as an internal one. */
  lemma {:induction false} AnywhereDecided(st: PlanState, g: nat, n: nat, uid: nat) returns (m: nat)
    requires Shaped(st) && g < |st.groups| && n <= |st.avail|
    ensures var reqs := GroupReqs(st.groups[g]);
            && n <= m <= |st.avail| && NoneBefore(reqs, st.avail, n, m, uid)
            && if m == |st.avail| then TryAnywhere(st, g, n, uid) == Raised(UserError)
               else
                 var found := OnNodeOf(reqs, st.avail[m], uid);
                 && !found.NoMatch?
                 && TryAnywhere(st, g, n, uid) ==
                      if found.Matched? then Done(Accept(st, g, m, Fill(reqs, found.reqs), found.rest)) else Raised(InternalError)
    decreases |st.avail| - n
  {
    m := n;
    if n < |st.avail| {
      AnywhereStep(st, g, n, uid);
      if OnNodeOf(GroupReqs(st.groups[g]), st.avail[n], uid).NoMatch? {
        m := AnywhereDecided(st, g, n + 1, uid);
        NoneBeforeNext(GroupReqs(st.groups[g]), st.avail, n, m, uid);
      }
    }
  }

  /** A list of known classes is placed exactly if some node can serve it. */
  lemma AnywhereExactly(st: PlanState, g: nat, n: nat, uid: nat)
    requires Shaped(st) && g < |st.groups| && n <= |st.avail| && forall q <- GroupReqs(st.groups[g]) :: q.cls.Some?
    ensures var reqs := GroupReqs(st.groups[g]);
            var o := TryAnywhere(st, g, n, uid);
            && (o.Done? <==> exists m | n <= m < |st.avail| :: OnNodeOf(reqs, st.avail[m], uid).Matched?)
            && (o.Raised? ==> o.error == UserError)
  {
    var reqs := GroupReqs(st.groups[g]);
    var m := AnywhereDecided(st, g, n, uid);
    if m < |st.avail| {
      MovedKnown(reqs, st.avail[m].name);
      KnownHandled(OnHosts(FreeOf(reqs), st.avail[m].name), st.avail[m].res, uid);
    }
  }

  lemma {:induction false} MovedKnown(reqs: seq<Req>, name: string)
    requires forall q <- reqs :: q.cls.Some?
    ensures forall q <- OnHosts(FreeOf(reqs), name) :: q.cls.Some?
  {
    FreeKnown(reqs);
    forall i | 0 <= i < |FreeOf(reqs)| ensures OnHosts(FreeOf(reqs), name)[i].cls.Some? { assert FreeOf(reqs)[i] in FreeOf(reqs); }
  }

  lemma {:induction false} FreeKnown(reqs: seq<Req>)
    requires forall q <- reqs :: q.cls.Some?
    ensures forall q <- FreeOf(reqs) :: q.cls.Some?
  {
    if reqs != [] {
      assert reqs[0] in reqs;
      FreeKnown(reqs[1..]);
    }
  }

  // ------------------------------------------------ lists with only indices

  /** What is left of a node when it serves an index-only list. */
  function FixedOn(reqs: seq<Req>, node: NodeAvail, uid: nat): Option<seq<Res>> {
    MatchFixed(OnHosts(FreeOf(reqs), node.name), node.res, uid)
  }

  /** What the look-ahead for a node finds, and what it writes. */
  function LookAt(groups0: seq<Group>, live: seq<Group>, node: NodeAvail, rest: seq<Res>, uid: nat): Match {
    MatchPartly(ReadRefs(live, RefsFor(groups0, 0, node.name)), rest, uid)
  }

  /** The caller's requests after a node has been passed over. */
  function PassedOver(groups0: seq<Group>, live: seq<Group>, reqs: seq<Req>, node: NodeAvail, uid: nat): (live': seq<Group>)
    ensures |live'| == |live|
  {
    var rest, refs := FixedOn(reqs, node, uid), RefsFor(groups0, 0, node.name);
    if rest.None? || refs == [] then live else WriteRefs(live, refs, LookAt(groups0, live, node, rest.value, uid).reqs)
  }

  /** A node is passed over if it cannot serve the list, or not in addition those who
      wait for it. */
  ghost predicate Passes(groups0: seq<Group>, live: seq<Group>, reqs: seq<Req>, node: NodeAvail, uid: nat) {
    var rest := FixedOn(reqs, node, uid);
    rest.None? || (RefsFor(groups0, 0, node.name) != [] && LookAt(groups0, live, node, rest.value, uid).NoMatch?)
  }

  /** Step j of a trail from node n on: the node is passed over. */
  ghost predicate StepAt(groups0: seq<Group>, reqs: seq<Req>, avail: seq<NodeAvail>, n: nat, lives: seq<seq<Group>>, j: nat, uid: nat) {
    && j + 1 < |lives| && n + j < |avail|
    && Passes(groups0, lives[j], reqs, avail[n + j], uid) && lives[j + 1] == PassedOver(groups0, lives[j], reqs, avail[n + j], uid)
  }

  /** The caller's requests, at each node from n up to m, all of which are passed over. */
  ghost predicate PassTrail(groups0: seq<Group>, reqs: seq<Req>, avail: seq<NodeAvail>, n: nat, lives: seq<seq<Group>>, uid: nat) {
    && 0 < |lives| && n + |lives| - 1 <= |avail|
    && forall j | 0 <= j < |lives| - 1 :: StepAt(groups0, reqs, avail, n, lives, j, uid)
  }

  lemma LaterStep(groups0: seq<Group>, reqs: seq<Req>, avail: seq<NodeAvail>, n: nat, live: seq<Group>, lives: seq<seq<Group>>, i: nat, uid: nat)
    requires StepAt(groups0, reqs, avail, n + 1, lives, i, uid)
    ensures StepAt(groups0, reqs, avail, n, [live] + lives, i + 1, uid)
  {
    var trail := [live] + lives;
    assert trail[i + 1] == lives[i] && trail[i + 2] == lives[i + 1];
  }

  lemma TrailStarts(groups0: seq<Group>, reqs: seq<Req>, avail: seq<NodeAvail>, n: nat, live: seq<Group>, lives: seq<seq<Group>>, uid: nat)
    requires n < |avail| && PassTrail(groups0, reqs, avail, n + 1, lives, uid)
    requires Passes(groups0, live, reqs, avail[n], uid) && lives[0] == PassedOver(groups0, live, reqs, avail[n], uid)
    ensures PassTrail(groups0, reqs, avail, n, [live] + lives, uid)
  {
    var trail := [live] + lives;
    forall j | 0 <= j < |trail| - 1
      ensures StepAt(groups0, reqs, avail, n, trail, j, uid)
    {
      if j > 0 { LaterStep(groups0, reqs, avail, n, live, lives, j - 1, uid); }
    }
  }

  /** What becomes of an index-only list at a node that is not passed over. */
  ghost function TakenAt(groups0: seq<Group>, live: seq<Group>, avail: seq<NodeAvail>, chosen: seq<Option<seq<Req>>>, reqs: seq<Req>, g: nat, m: nat, uid: nat): Outcome<PlanState>
    requires |live| == |chosen| && g < |chosen| && m < |avail| && FixedOn(reqs, avail[m], uid).Some?
  {
    var node, rest := avail[m], FixedOn(reqs, avail[m], uid).value;
    if RefsFor(groups0, 0, node.name) != [] && LookAt(groups0, live, node, rest, uid).Unhandled? then Raised(InternalError)
    else
      var st := PlanState(PassedOver(groups0, live, reqs, node, uid), avail, chosen);
      Done(Accept(st, g, m, Fill(reqs, OnHosts(FreeOf(reqs), node.name)), rest))
  }

  /** One step of the search, at a node that is passed over. */
  lemma IndexedPasses(groups0: seq<Group>, st: PlanState, g: nat, n: nat, uid: nat)
    requires Shaped(st) && g < |st.groups| && n < |st.avail| && Passes(groups0, st.groups, GroupReqs(st.groups[g]), st.avail[n], uid)
    ensures var live := PassedOver(groups0, st.groups, GroupReqs(st.groups[g]), st.avail[n], uid);
            TryIndexed(groups0, st, g, n, uid) == TryIndexed(groups0, st.(groups := live), g, n + 1, uid)
  {
    assert st.(groups := st.groups) == st;
  }

  /** The last step, at a node that is not. */
  lemma IndexedStops(groups0: seq<Group>, st: PlanState, g: nat, n: nat, uid: nat)
    requires Shaped(st) && g < |st.groups| && n < |st.avail| && !Passes(groups0, st.groups, GroupReqs(st.groups[g]), st.avail[n], uid)
    ensures TryIndexed(groups0, st, g, n, uid) == TakenAt(groups0, st.groups, st.avail, st.chosen, GroupReqs(st.groups[g]), g, n, uid)
  {
    assert st.(groups := st.groups) == st;
  }

  lemma IndexedEnds(groups0: seq<Group>, st: PlanState, g: nat, uid: nat)
    requires Shaped(st) && g < |st.groups|
    ensures TryIndexed(groups0, st, g, |st.avail|, uid) == Raised(UserError)
  {
  }

  /** The search ends at node m, with the caller's requests like this. */
  ghost predicate EndsAt(groups0: seq<Group>, live: seq<Group>, avail: seq<NodeAvail>, chosen: seq<Option<seq<Req>>>, reqs: seq<Req>, g: nat, m: nat, o: Outcome<PlanState>, uid: nat) {
    && |live| == |chosen| && g < |chosen| && m <= |avail|
    && if m == |avail| then o == Raised(UserError)
       else !Passes(groups0, live, reqs, avail[m], uid) && o == TakenAt(groups0, live, avail, chosen, reqs, g, m, uid)
  }

  /** From node n on the search passes over nodes along this trail, to end like this. */
  ghost predicate Settles(groups0: seq<Group>, avail: seq<NodeAvail>, chosen: seq<Option<seq<Req>>>, reqs: seq<Req>, g: nat, n: nat,
                          lives: seq<seq<Group>>, o: Outcome<PlanState>, uid: nat)
  {
    PassTrail(groups0, reqs, avail, n, lives, uid) && EndsAt(groups0, lives[|lives| - 1], avail, chosen, reqs, g, n + |lives| - 1, o, uid)
  }

  lemma SettlesNext(groups0: seq<Group>, live: seq<Group>, avail: seq<NodeAvail>, chosen: seq<Option<seq<Req>>>, reqs: seq<Req>, g: nat, n: nat,
                    later: seq<seq<Group>>, o: Outcome<PlanState>, uid: nat)
    requires n < |avail| && Passes(groups0, live, reqs, avail[n], uid) && Settles(groups0, avail, chosen, reqs, g, n + 1, later, o, uid)
    requires later[0] == PassedOver(groups0, live, reqs, avail[n], uid)
    ensures Settles(groups0, avail, chosen, reqs, g, n, [live] + later, o, uid)
  {
    TrailStarts(groups0, reqs, avail, n, live, later, uid);
    assert ([live] + later)[|later|] == later[|later| - 1];
  }

  /** An index-only list goes to the first node that can serve it and, in addition, those
      who wait for it, as the caller's requests are by then. */
  lemma {:induction false} IndexedDecided(groups0: seq<Group>, st: PlanState, g: nat, n: nat, uid: nat) returns (lives: seq<seq<Group>>)
    requires Shaped(st) && g < |st.groups| && n <= |st.avail|
    requires RefsLeave(groups0, g)
    ensures Settles(groups0, st.avail, st.chosen, GroupReqs(st.groups[g]), g, n, lives, TryIndexed(groups0, st, g, n, uid), uid)
    ensures lives[0] == st.groups
    decreases |st.avail| - n
  {
    var reqs := GroupReqs(st.groups[g]);
    lives := [st.groups];
    if n == |st.avail| {
      IndexedEnds(groups0, st, g, uid);
    } else if !Passes(groups0, st.groups, reqs, st.avail[n], uid) {
      IndexedStops(groups0, st, g, n, uid);
    } else {
      PassedLeaves(groups0, st.groups, reqs, st.avail[n], g, uid);
      IndexedPasses(groups0, st, g, n, uid);
      var later := IndexedDecided(groups0, st.(groups := PassedOver(groups0, st.groups, reqs, st.avail[n], uid)), g, n + 1, uid);
      SettlesNext(groups0, st.groups, st.avail, st.chosen, reqs, g, n, later, TryIndexed(groups0, st, g, n, uid), uid);
      lives := [st.groups] + later;
    }
  }

  /** Nobody in group g waits for a host. */
  ghost predicate RefsLeave(groups0: seq<Group>, g: nat) { g < |groups0| ==> GroupDOF(groups0[g]) != 2 }

  lemma {:induction false} WritesLeave(live: seq<Group>, refs: seq<Ref>, qs: seq<Req>, g: nat)
    requires g < |live| && forall r <- refs :: r.g != g
    ensures WriteRefs(live, refs, qs)[g] == live[g]
    decreases |refs|
  {
    if refs != [] && qs != [] {
      assert refs[0] in refs;
      WritesLeave(WriteRef(live, refs[0], qs[0]), refs[1..], qs[1..], g);
    }
  }

  lemma {:induction false} RefsInGroup(reqs: seq<Req>, g: nat, p: nat, host: string)
    requires p <= |reqs|
    ensures forall r <- RefsIn(reqs, g, p, host) :: r.g == g
    decreases |reqs| - p
  {
    if p < |reqs| { RefsInGroup(reqs, g, p + 1, host); }
  }

  lemma {:induction false} RefsAreOfHosted(groups: seq<Group>, n: nat, host: string)
    requires n <= |groups|
    ensures forall r <- RefsFor(groups, n, host) :: r.g < |groups| && GroupDOF(groups[r.g]) == 2
    decreases |groups| - n
  {
    if n < |groups| {
      RefsAreOfHosted(groups, n + 1, host);
      RefsInGroup(GroupReqs(groups[n]), n, 0, host);
    }
  }

  lemma PassedLeaves(groups0: seq<Group>, live: seq<Group>, reqs: seq<Req>, node: NodeAvail, g: nat, uid: nat)
    requires g < |live| && RefsLeave(groups0, g)
    ensures PassedOver(groups0, live, reqs, node, uid)[g] == live[g]
  {
    var refs := RefsFor(groups0, 0, node.name);
    RefsAreOfHosted(groups0, 0, node.name);
    var rest := FixedOn(reqs, node, uid);
    if rest.Some? { WritesLeave(live, refs, LookAt(groups0, live, node, rest.value, uid).reqs, g); }
  }

  // --------------------------------------------------- lists with a host

  /** The first node of this name. */
  ghost predicate IsFirst(avail: seq<NodeAvail>, n: nat, name: string) {
    n < |avail| && avail[n].name == name && forall j | 0 <= j < n :: avail[j].name != name
  }

  ghost predicate HostServes(avail: seq<NodeAvail>, name: string, reqs: seq<Req>, uid: nat) {
    exists n: nat :: IsFirst(avail, n, name) && MatchPartly(reqs, SortRes(avail[n].res), uid).Matched?
  }

  /** A list with a host is placed exactly if its node has free resources listed and can
      serve what of the list is still open. */
  lemma OnHostExactly(st: PlanState, g: nat, uid: nat)
    requires Shaped(st) && g < |st.groups|
    ensures var free := FreeOf(GroupReqs(st.groups[g]));
            PlaceOnHost(st, g, uid).Done? <==>
              && free != [] && free[0].host.Some?
              && HostServes(st.avail, free[0].host.value, free, uid)
  {
    var free := FreeOf(GroupReqs(st.groups[g]));
    if free != [] && free[0].host.Some? {
      var name := free[0].host.value;
      var i := NodeIndex(st.avail, name);
      IndexIsFirst(st.avail, name);
      OnHostAt(st, g, free, i, uid);
      if i < |st.avail| { assert IsFirst(st.avail, i, name); }
      if HostServes(st.avail, name, free, uid) {
        var n: nat :| IsFirst(st.avail, n, name) && MatchPartly(free, SortRes(st.avail[n].res), uid).Matched?;
        assert n == i;
      }
    }
  }

  lemma OnHostAt(st: PlanState, g: nat, free: seq<Req>, i: nat, uid: nat)
    requires Shaped(st) && g < |st.groups| && free == FreeOf(GroupReqs(st.groups[g])) && free != [] && free[0].host.Some?
    requires i == NodeIndex(st.avail, free[0].host.value)
    ensures PlaceOnHost(st, g, uid).Done? <==> i < |st.avail| && MatchPartly(free, SortRes(st.avail[i].res), uid).Matched?
  {
  }

  lemma {:induction false} IndexIsFirst(avail: seq<NodeAvail>, name: string)
    ensures forall j | 0 <= j < NodeIndex(avail, name) :: avail[j].name != name
  {
    if avail != [] && avail[0].name != name { IndexIsFirst(avail[1..], name); }
  }
}
