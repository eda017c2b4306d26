/** Every plan that succeeds, of whatever request, has one list for each group, as
    long as the group. */
module PlanShape {
  import opened Resources
  import Ledger
  import opened Matchers
  import opened MatchingSteps
  import opened Planner
  import opened PlacementSteps
  import opened Waiting
  import opened PlanSound

  predicate SameSize(g: Group, h: Group) { g.Reqs? == h.Reqs? && |GroupReqs(g)| == |GroupReqs(h)| }

  ghost predicate SameSizes(groups: seq<Group>, live: seq<Group>) {
    |live| == |groups| && forall i | 0 <= i < |groups| :: SameSize(groups[i], live[i])
  }

  /** Lists chosen for groups of requests have the length of the group. */
  ghost predicate Sized(groups: seq<Group>, st: PlanState) {
    && Shaped(st) && SameSizes(groups, st.groups)
    && (forall i | 0 <= i < |groups| && groups[i].Reqs? && st.chosen[i].Some? :: |st.chosen[i].value| == |groups[i].reqs|)
  }

  /** What is chosen stays chosen. */
  ghost predicate Onward(st: PlanState, st': PlanState) {
    |st'.chosen| == |st.chosen| && forall i | 0 <= i < |st.chosen| && st.chosen[i].Some? :: st'.chosen[i].Some?
  }

  ghost predicate AllChosen(st: PlanState, todo: seq<nat>) {
    forall i | 0 <= i < |todo| :: todo[i] < |st.chosen| && st.chosen[todo[i]].Some?
  }

  lemma ChosenCons(st: PlanState, st': PlanState, todo: seq<nat>)
    requires todo != [] && todo[0] < |st.chosen| && st.chosen[todo[0]].Some? && Onward(st, st') && AllChosen(st', todo[1..])
    ensures AllChosen(st', todo)
  {
    assert forall i | 0 < i < |todo| :: todo[i] == todo[1..][i - 1];
  }

  lemma {:induction false} WriteKeepsSizes(groups: seq<Group>, live: seq<Group>, refs: seq<Ref>, qs: seq<Req>)
    requires SameSizes(groups, live)
    ensures SameSizes(groups, WriteRefs(live, refs, qs))
    decreases |refs|
  {
    if refs != [] && qs != [] { WriteKeepsSizes(groups, WriteRef(live, refs[0], qs[0]), refs[1..], qs[1..]); }
  }

  lemma AcceptSized(groups: seq<Group>, st: PlanState, g: nat, n: nat, picks: seq<Req>, rest: seq<Res>)
    requires Sized(groups, st) && g < |st.groups| && n < |st.avail|
    ensures var st' := Accept(st, g, n, Fill(GroupReqs(st.groups[g]), picks), rest);
            Sized(groups, st') && Onward(st, st') && st'.chosen[g].Some?
  {
    FillLength(GroupReqs(st.groups[g]), picks);
    assert SameSize(groups[g], st.groups[g]);
  }

  lemma {:induction false} TryIndexedSized(groups: seq<Group>, groups0: seq<Group>, st: PlanState, g: nat, n: nat, uid: nat)
    requires Sized(groups, st) && g < |st.groups| && n <= |st.avail| && TryIndexed(groups0, st, g, n, uid).Done?
    ensures var st' := TryIndexed(groups0, st, g, n, uid).value;
            Sized(groups, st') && Onward(st, st') && st'.chosen[g].Some?
    decreases |st.avail| - n
  {
    var node, reqs := st.avail[n], GroupReqs(st.groups[g]);
    var onNode := OnHosts(FreeOf(reqs), node.name);
    match MatchFixed(onNode, node.res, uid) {
      case None => TryIndexedSized(groups, groups0, st, g, n + 1, uid);
      case Some(rest) =>
        var refs := RefsFor(groups0, 0, node.name);
        if refs == [] {
          AcceptSized(groups, st, g, n, onNode, rest);
        } else {
          var look := MatchPartly(ReadRefs(st.groups, refs), rest, uid);
          var st' := st.(groups := WriteRefs(st.groups, refs, look.reqs));
          WriteKeepsSizes(groups, st.groups, refs, look.reqs);
          if look.Matched? {
            AcceptWritten(groups, st', g, n, reqs, onNode, rest);
          } else {
            TryIndexedSized(groups, groups0, st', g, n + 1, uid);
          }
        }
    }
  }

  lemma AcceptWritten(groups: seq<Group>, st: PlanState, g: nat, n: nat, reqs: seq<Req>, picks: seq<Req>, rest: seq<Res>)
    requires Sized(groups, st) && g < |st.groups| && n < |st.avail| && |reqs| == |GroupReqs(groups[g])|
    ensures var st' := Accept(st, g, n, Fill(reqs, picks), rest);
            Sized(groups, st') && Onward(st, st') && st'.chosen[g].Some?
  {
    FillLength(reqs, picks);
  }

  lemma {:induction false} PlaceIndexedSized(site: Site, groups: seq<Group>, groups0: seq<Group>, st: PlanState, todo: seq<nat>, uid: nat)
    requires Sized(groups, st) && InRange(todo, |st.groups|) && PlaceIndexed(site, groups0, st, todo, uid).Done?
    ensures var st' := PlaceIndexed(site, groups0, st, todo, uid).value;
            Sized(groups, st') && Onward(st, st') && AllChosen(st', todo)
    decreases |todo|
  {
    if todo != [] {
      var sorted := st.(avail := SortAvail(site, st.avail));
      TryIndexedSized(groups, groups0, sorted, todo[0], 0, uid);
      var st1 := TryIndexed(groups0, sorted, todo[0], 0, uid).value;
      PlaceIndexedSized(site, groups, groups0, st1, todo[1..], uid);
      ChosenCons(st1, PlaceIndexed(site, groups0, st, todo, uid).value, todo);
    }
  }

  lemma PlaceOnHostSized(groups: seq<Group>, st: PlanState, g: nat, uid: nat)
    requires Sized(groups, st) && g < |st.groups| && PlaceOnHost(st, g, uid).Done?
    ensures var st' := PlaceOnHost(st, g, uid).value;
            Sized(groups, st') && Onward(st, st') && st'.chosen[g].Some?
  {
    var reqs := GroupReqs(st.groups[g]);
    var free := FreeOf(reqs);
    var n := NodeIndex(st.avail, free[0].host.value);
    var m := MatchPartly(free, SortRes(st.avail[n].res), uid);
    FillLength(reqs, m.reqs);
    assert st.groups[g].Reqs?;
    assert SameSize(groups[g], st.groups[g]);
    var st1 := st.(groups := st.groups[g := Reqs(Fill(reqs, m.reqs))]);
    assert Sized(groups, st1);
    AcceptWritten(groups, st1, g, n, reqs, m.reqs, m.rest);
  }

  lemma {:induction false} PlaceHostedSized(groups: seq<Group>, st: PlanState, todo: seq<nat>, uid: nat)
    requires Sized(groups, st) && InRange(todo, |st.groups|) && PlaceHosted(st, todo, uid).Done?
    ensures var st' := PlaceHosted(st, todo, uid).value;
            Sized(groups, st') && Onward(st, st') && AllChosen(st', todo)
    decreases |todo|
  {
    if todo != [] {
      PlaceOnHostSized(groups, st, todo[0], uid);
      var st1 := PlaceOnHost(st, todo[0], uid).value;
      PlaceHostedSized(groups, st1, todo[1..], uid);
      ChosenCons(st1, PlaceHosted(st, todo, uid).value, todo);
    }
  }

  lemma {:induction false} TryAnywhereSized(groups: seq<Group>, st: PlanState, g: nat, n: nat, uid: nat)
    requires Sized(groups, st) && g < |st.groups| && n <= |st.avail| && TryAnywhere(st, g, n, uid).Done?
    ensures var st' := TryAnywhere(st, g, n, uid).value;
            Sized(groups, st') && Onward(st, st') && st'.chosen[g].Some?
    decreases |st.avail| - n
  {
    var node, reqs := st.avail[n], GroupReqs(st.groups[g]);
    var m := MatchPartly(OnHosts(FreeOf(reqs), node.name), node.res, uid);
    if m.Matched? {
      AcceptSized(groups, st, g, n, m.reqs, m.rest);
    } else {
      TryAnywhereSized(groups, st, g, n + 1, uid);
    }
  }

  lemma {:induction false} TryWholeNodeSized(site: Site, groups: seq<Group>, st: PlanState, g: nat, wants: seq<Req>, n: nat)
    requires Sized(groups, st) && g < |st.groups| && st.groups[g].Node? && n <= |st.avail|
    requires TryWholeNode(site, st, g, wants, n).Done?
    ensures var st' := TryWholeNode(site, st, g, wants, n).value;
            Sized(groups, st') && Onward(st, st') && st'.chosen[g].Some?
    decreases |st.avail| - n
  {
    assert SameSize(groups[g], st.groups[g]);
    if !(IsWhole(site, st.avail[n]) && HasWanted(wants, st.avail[n].res)) {
      TryWholeNodeSized(site, groups, st, g, wants, n + 1);
    }
  }

  lemma {:induction false} PlaceAnywhereSized(site: Site, groups: seq<Group>, st: PlanState, todo: seq<nat>, uid: nat)
    requires Sized(groups, st) && InRange(todo, |st.groups|) && PlaceAnywhere(site, st, todo, uid).Done?
    ensures var st' := PlaceAnywhere(site, st, todo, uid).value;
            Sized(groups, st') && Onward(st, st') && AllChosen(st', todo)
    decreases |todo|
  {
    if todo != [] {
      var g, st1 := todo[0], st.(avail := SortAvail(site, st.avail));
      var st2;
      if st1.groups[g].Node? {
        TryWholeNodeSized(site, groups, st1, g, st1.groups[g].wants, 0);
        st2 := TryWholeNode(site, st1, g, st1.groups[g].wants, 0).value;
      } else {
        TryAnywhereSized(groups, st1, g, 0, uid);
        st2 := TryAnywhere(st1, g, 0, uid).value;
      }
      PlaceAnywhereSized(site, groups, st2, todo[1..], uid);
      ChosenCons(st2, PlaceAnywhere(site, st, todo, uid).value, todo);
    }
  }

  lemma Everyone(groups: seq<Group>, st: PlanState)
    requires |st.chosen| == |groups|
    requires forall i | 0 <= i < |groups| && GroupDOF(groups[i]) == 0 :: st.chosen[i].Some?
    requires AllChosen(st, WithDOF(groups, 1, 0)) && AllChosen(st, WithDOF(groups, 2, 0)) && AllChosen(st, WithDOF(groups, 3, 0))
    ensures forall i | 0 <= i < |groups| :: st.chosen[i].Some?
  {
    forall i | 0 <= i < |groups|
      ensures st.chosen[i].Some?
    {
      MaxDOFIsMax(GroupReqs(groups[i]));
      var d := GroupDOF(groups[i]);
      WithDOFBounds(groups, d, 0);
      if d > 0 {
        var todo := WithDOF(groups, d, 0);
        assert AllChosen(st, todo) && i in todo;
        var j :| 0 <= j < |todo| && todo[j] == i;
      }
    }
  }

  lemma StaysChosen(st: PlanState, st': PlanState, todo: seq<nat>)
    requires AllChosen(st, todo) && Onward(st, st')
    ensures AllChosen(st', todo)
  {
  }

  lemma StartOnward(groups: seq<Group>, st: PlanState, st1: PlanState, st2: PlanState, st3: PlanState)
    requires st.chosen == StartChosen(groups) && Onward(st, st1) && Onward(st1, st2) && Onward(st2, st3)
    ensures forall i | 0 <= i < |groups| && GroupDOF(groups[i]) == 0 :: st3.chosen[i].Some?
  {
  }

  lemma PlaceSized(site: Site, groups: seq<Group>, st: PlanState, uid: nat)
    requires Sized(groups, st) && st.chosen == StartChosen(groups) && Place(site, groups, st, uid).Done?
    ensures Sized(groups, Place(site, groups, st, uid).value)
    ensures forall i | 0 <= i < |groups| :: Place(site, groups, st, uid).value.chosen[i].Some?
  {
    var d1, d2, d3 := WithDOF(groups, 1, 0), WithDOF(groups, 2, 0), WithDOF(groups, 3, 0);
    AllInRange(groups);
    PlaceIndexedSized(site, groups, groups, st, d1, uid);
    var st1 := PlaceIndexed(site, groups, st, d1, uid).value;
    PlaceHostedSized(groups, st1, d2, uid);
    var st2 := PlaceHosted(st1, d2, uid).value;
    var left := st2.(avail := DropEmpty(st2.avail));
    PlaceAnywhereSized(site, groups, left, d3, uid);
    var st3 := PlaceAnywhere(site, left, d3, uid).value;
    StaysChosen(st1, st2, d1);
    StaysChosen(left, st3, d1);
    StaysChosen(left, st3, d2);
    StartOnward(groups, st, st1, left, st3);
    Everyone(groups, st3);
  }

  lemma AllInRange(groups: seq<Group>)
    ensures InRange(WithDOF(groups, 1, 0), |groups|) && InRange(WithDOF(groups, 2, 0), |groups|) && InRange(WithDOF(groups, 3, 0), |groups|)
  {
    WithDOFBounds(groups, 1, 0);
    WithDOFBounds(groups, 2, 0);
    WithDOFBounds(groups, 3, 0);
  }

  lemma PastedSizes(groups: seq<Group>)
    ensures SameSizes(groups, PasteAll(groups))
  {
  }

  lemma StartSized(groups: seq<Group>, pasted: seq<Group>, st: PlanState)
    requires pasted == PasteAll(groups) && st.groups == pasted && st.chosen == StartChosen(pasted)
    ensures Sized(pasted, st)
  {
  }

  lemma SizedPlan(groups: seq<Group>, st: PlanState)
    requires Sized(PasteAll(groups), st) && forall i | 0 <= i < |groups| :: st.chosen[i].Some?
    ensures forall i | 0 <= i < |groups| && groups[i].Reqs? :: |Chosen(st.chosen)[i]| == |groups[i].reqs|
  {
    var pasted := PasteAll(groups);
    PastedSizes(groups);
    forall i | 0 <= i < |groups| && groups[i].Reqs?
      ensures |Chosen(st.chosen)[i]| == |groups[i].reqs|
    {
      assert SameSize(groups[i], pasted[i]);
    }
  }

  /** A plan has one list a group, and a list of requests is answered in full. */
  lemma PlanHasShape(t: Ledger.Table, site: Site, groups: seq<Group>, uid: nat)
    requires Plan(t, site, groups, uid).Done?
    ensures var plan := Plan(t, site, groups, uid).value;
            |plan| == |groups| && forall i | 0 <= i < |groups| && groups[i].Reqs? :: |plan[i]| == |groups[i].reqs|
  {
    var pasted := PasteAll(groups);
    PlanParts(t, site, groups, uid);
    var st := Start(t, site, pasted, uid).value;
    StartSized(groups, pasted, st);
    PlaceSized(site, pasted, st, uid);
    SizedPlan(groups, Place(site, pasted, st, uid).value);
  }
}
