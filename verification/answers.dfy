/** What an answered request gets, item by item, in terms of what was asked for. */
module Answers {
  import opened Resources
  import opened Ledger
  import opened Matchers
  import opened Planner
  import opened PlanTheorem
  import opened PlanSound
  import opened Requests
  import opened Commit
  import opened Allocating
  import opened Suits
  import SingleRequests
  import WholeNode
  import WholePick
  import Spoiling

  /** A list is answered resource by resource; unless each of its requests names a
      resource it is answered by one host. */
  ghost predicate ListMet(qs: seq<Req>, rs: seq<Res>, uid: nat) {
    && |rs| == |qs| && (forall j | 0 <= j < |qs| :: Meets(qs[j], rs[j], uid))
    && ((forall q <- qs :: q.idx.Some? && q.host.Some?) || forall i, j | 0 <= i < j < |rs| :: rs[i].attrs.key.host == rs[j].attrs.key.host)
  }

  /** What is wanted of a node is there, each time another resource. */
  ghost predicate WantsMet(wants: seq<Req>, rs: seq<Res>) { exists at: seq<nat> :: MetAt(wants, rs, at) }

  ghost predicate MetAt(wants: seq<Req>, rs: seq<Res>, at: seq<nat>) {
    && |at| == |wants| && (forall i | 0 <= i < |at| :: at[i] < |rs| && SuitsReq(rs[at[i]].attrs, wants[i]))
    && forall i, j | 0 <= i < j < |at| :: at[i] != at[j]
  }

  /** A node is answered by resources of one node, that named if one was, which the user
      all has; and what is wanted is among them. */
  ghost predicate NodeMet(host: Option<string>, wants: seq<Req>, answered: Option<string>, rs: seq<Res>, uid: nat) {
    && (host.Some? ==> answered == host)
    && (forall r <- rs :: answered == Some(r.attrs.key.host) && uid in r.owners)
    && WantsMet(wants, rs)
  }

  ghost predicate ItemMet(item: Item<Req>, answer: Item<Res>, uid: nat) {
    match item
    case Single(q) => answer.Single? && Meets(q, answer.x, uid)
    case Several(qs) => answer.Several? && ListMet(qs, answer.xs, uid)
    case Aggregate(lists) =>
      answer.Aggregate? && |answer.lists| == |lists| && forall i | 0 <= i < |lists| :: ListMet(lists[i], answer.lists[i], uid)
    case WholeNode(host, wants) => answer.WholeNode? && NodeMet(host, wants, answer.host, answer.xs, uid)
  }

  lemma DeliveredMeets(q: Req, p: Req, r: Res, uid: nat)
    requires Delivers(p, r, uid) && (p == q || (q.host.None? && p == q.(host := p.host)))
    ensures Meets(q, r, uid)
  {
    MatchMeans(r.attrs, p);
    MatchMeans(r.attrs, q);
  }

  lemma DeliveredListMet(qs: seq<Req>, rs: seq<Res>, uid: nat)
    requires WellHosted(qs) && DeliversGroup(Reqs(Paste(qs)), rs, uid)
    ensures ListMet(qs, rs, uid)
  {
    var ps := Paste(qs);
    FirstHostIsGiven(qs);
    forall j | 0 <= j < |qs|
      ensures Meets(qs[j], rs[j], uid)
    {
      assert qs[j] in qs;
      DeliveredMeets(qs[j], ps[j], rs[j], uid);
    }
    if !(forall q <- qs :: q.idx.Some? && q.host.Some?) {
      if forall p <- ps :: DOF(p) == 0 { PastedFixedOnOneHost(qs, rs, uid); }
    }
  }

  /** A list that is fixed only once its host is pasted in is on that host. */
  lemma PastedFixedOnOneHost(qs: seq<Req>, rs: seq<Res>, uid: nat)
    requires DeliversGroup(Reqs(Paste(qs)), rs, uid) && !(forall q <- qs :: DOF(q) == 0) && forall p <- Paste(qs) :: DOF(p) == 0
    ensures forall i, j | 0 <= i < j < |rs| :: rs[i].attrs.key.host == rs[j].attrs.key.host
  {
    var ps := Paste(qs);
    forall j | 0 <= j < |rs|
      ensures Some(rs[j].attrs.key.host) == FirstHost(qs)
    {
      assert Delivers(ps[j], rs[j], uid) && ps[j] in ps;
    }
  }

  /** The resources listed are those that were picked. */
  ghost predicate AsPicked(t: Table, plan: seq<seq<Req>>, lists: seq<seq<Res>>) {
    |lists| == |plan| && forall i | 0 <= i < |plan| :: PickedAs(t, plan[i], lists[i])
  }

  ghost predicate PickedAs(t: Table, qs: seq<Req>, rs: seq<Res>) {
    |rs| == |qs| && forall j | 0 <= j < |qs| :: OnePicked(t, qs[j], rs[j])
  }

  ghost predicate OnePicked(t: Table, q: Req, r: Res) { Keyed(q) && r.attrs.key == KeyOf(q) && r.attrs.key in t && r.attrs == t[r.attrs.key].attrs }

  lemma AnsweredItemMet(t: Table, item: Item<Req>, plan: seq<seq<Req>>, lists: seq<seq<Res>>, uid: nat)
    requires Answerable(item, plan) && Answerable(item, lists) && AsPicked(t, plan, lists) && !Misplaced(item, plan)
    requires forall g <- Expand(item) :: g.Reqs? ==> WellHosted(g.reqs)
    requires Delivered(Expand(item), lists, uid)
    ensures ItemMet(item, Regroup(item, lists), uid)
  {
    forall i | 0 <= i < |lists| && Expand(item)[i].Reqs?
      ensures ListMet(Expand(item)[i].reqs, lists[i], uid)
    {
      assert Expand(item)[i] in Expand(item);
      DeliveredListMet(Expand(item)[i].reqs, lists[i], uid);
    }
    if item.WholeNode? {
      forall r <- lists[0]
        ensures NodeName(item.host, lists[0]) == Some(r.attrs.key.host) && uid in r.owners
      {
        var j :| 0 <= j < |lists[0]| && lists[0][j] == r;
        assert plan[0][j] in plan[0] && plan[0][0] in plan[0];
      }
    } else if item.Single? {
      assert Expand(item)[0].reqs == [item.x];
    }
  }

  ghost predicate Delivered(groups: seq<Group>, lists: seq<seq<Res>>, uid: nat) {
    |groups| == |lists| && forall i | 0 <= i < |lists| :: GroupDelivered(groups[i], lists[i], uid)
  }

  ghost predicate GroupDelivered(g: Group, rs: seq<Res>, uid: nat) {
    DeliversGroup(PasteGroup(g), rs, uid) && (g.Node? ==> WantsMet(g.wants, rs))
  }

  lemma DeliveredParts(first: seq<Group>, rest: seq<Group>, lists: seq<seq<Res>>, uid: nat)
    requires Delivered(first + rest, lists, uid)
    ensures Delivered(first, lists[..|first|], uid) && Delivered(rest, lists[|first|..], uid)
  {
    forall i | 0 <= i < |first|
      ensures GroupDelivered(first[i], lists[..|first|][i], uid)
    {
      assert (first + rest)[i] == first[i];
    }
    forall i | 0 <= i < |rest|
      ensures GroupDelivered(rest[i], lists[|first|..][i], uid)
    {
      assert (first + rest)[|first| + i] == rest[i];
    }
  }

  lemma PickedParts(t: Table, plan: seq<seq<Req>>, lists: seq<seq<Res>>, w: nat)
    requires AsPicked(t, plan, lists) && w <= |plan|
    ensures AsPicked(t, plan[..w], lists[..w]) && AsPicked(t, plan[w..], lists[w..])
  {
  }

  ghost predicate Ready(t: Table, items: seq<Item<Req>>, plan: seq<seq<Req>>, lists: seq<seq<Res>>, uid: nat) {
    && AllAnswerable(items, plan) && AllAnswerable(items, lists) && AsPicked(t, plan, lists) && !AnyMisplaced(items, plan)
    && (forall g <- ExpandAll(items) :: g.Reqs? ==> WellHosted(g.reqs))
    && Delivered(ExpandAll(items), lists, uid)
  }

  lemma ReadyParts(t: Table, items: seq<Item<Req>>, plan: seq<seq<Req>>, lists: seq<seq<Res>>, uid: nat)
    requires items != [] && Ready(t, items, plan, lists, uid)
    ensures var w := |Lists(items[0])|;
            && w <= |plan| && w <= |lists|
            && Answerable(items[0], plan[..w]) && Answerable(items[0], lists[..w]) && AsPicked(t, plan[..w], lists[..w]) && !Misplaced(items[0], plan[..w])
            && (forall g <- Expand(items[0]) :: g.Reqs? ==> WellHosted(g.reqs))
            && Delivered(Expand(items[0]), lists[..w], uid)
            && Ready(t, items[1..], plan[w..], lists[w..], uid)
  {
    var w, first, rest := |Lists(items[0])|, Expand(items[0]), ExpandAll(items[1..]);
    assert |first| == w && ExpandAll(items) == first + rest;
    DeliveredParts(first, rest, lists, uid);
    PickedParts(t, plan, lists, w);
  }

  lemma {:induction false} AllItemsMet(t: Table, items: seq<Item<Req>>, plan: seq<seq<Req>>, lists: seq<seq<Res>>, uid: nat)
    requires Ready(t, items, plan, lists, uid)
    ensures var out := RegroupAll(items, lists);
            |out| == |items| && forall i | 0 <= i < |items| :: ItemMet(items[i], out[i], uid)
    decreases |items|
  {
    if items != [] {
      var w := |Lists(items[0])|;
      ReadyParts(t, items, plan, lists, uid);
      AnsweredItemMet(t, items[0], plan[..w], lists[..w], uid);
      AllItemsMet(t, items[1..], plan[w..], lists[w..], uid);
      var later := RegroupAll(items[1..], lists[w..]);
      forall i | 0 < i < |items|
        ensures ItemMet(items[i], ([Regroup(items[0], lists[..w])] + later)[i], uid)
      {
        assert items[i] == items[1..][i - 1];
      }
    }
  }

  lemma {:induction false} CommittedAsPicked(t: Table, plan: seq<seq<Req>>, uid: nat, launched: set<string>)
    requires SafeTable(t) && CommitLists(t, plan, uid, launched).ok
    ensures AsPicked(t, plan, CommitLists(t, plan, uid, launched).out)
    decreases |plan|
  {
    if plan != [] {
      var s := CommitReqs(t, plan[0], uid, launched);
      ReqsStaySafe(t, plan[0], uid, launched);
      CommittedAsPicked(s.table, plan[1..], uid, launched);
      CommittedLength(t, plan[0], uid, launched);
      forall j | 0 <= j < |plan[0]|
        ensures OnePicked(t, plan[0][j], s.out[j])
      {
        SnapshotsAnswer(t, plan[0], uid, launched, j);
      }
      PickedLater(t, s.table, plan, [s.out] + CommitLists(s.table, plan[1..], uid, launched).out);
    }
  }

  lemma PickedLater(t: Table, t': Table, plan: seq<seq<Req>>, lists: seq<seq<Res>>)
    requires plan != [] && lists != [] && PickedAs(t, plan[0], lists[0]) && AsPicked(t', plan[1..], lists[1..])
    requires SameHardware(t, t')
    ensures AsPicked(t, plan, lists)
  {
    forall i | 0 < i < |plan|
      ensures PickedAs(t, plan[i], lists[i])
    {
      assert plan[i] == plan[1..][i - 1] && lists[i] == lists[1..][i - 1];
      assert PickedAs(t', plan[1..][i - 1], lists[1..][i - 1]);
    }
  }

  /** What is wanted of a node is among what was committed for it. */
  lemma WantedIsPicked(t: Table, site: Site, wants: seq<Req>, x: seq<Req>, a: NodeAvail, rs: seq<Res>)
    requires WholePick.PickedFrom(t, site, wants, x, a) && PickedAs(t, x, rs)
    ensures WantsMet(wants, rs)
  {
    WholePick.AsRequestsAt(a.res);
    var at := WholeNode.WantedAreDistinct(wants, a.res);
    forall i | 0 <= i < |at|
      ensures at[i] < |rs| && SuitsReq(rs[at[i]].attrs, wants[i])
    {
      var r := a.res[at[i]];
      assert r in a.res && OnePicked(t, x[at[i]], rs[at[i]]);
      MatchMeans(r.attrs, wants[i]);
    }
    assert MetAt(wants, rs, at);
  }

  lemma {:induction false} CommittedLength(t: Table, qs: seq<Req>, uid: nat, launched: set<string>)
    requires CommitReqs(t, qs, uid, launched).ok
    ensures |CommitReqs(t, qs, uid, launched).out| == |qs|
    decreases |qs|
  {
    if qs != [] { CommittedLength(t[KeyOf(qs[0]) := Grow(t[KeyOf(qs[0])], qs[0], uid)], qs[1..], uid, launched); }
  }

  /** What is committed of a sound plan is delivered. */
  lemma CommittedIsDelivered(t: Table, site: Site, items: seq<Item<Req>>, plan: seq<seq<Req>>, uid: nat, launched: set<string>)
    requires Orderly(t, site) && Plain(t, items) && Plan(t, site, ExpandAll(items), uid) == Done(plan) && CommitLists(t, plan, uid, launched).ok
    ensures Delivered(ExpandAll(items), CommitLists(t, plan, uid, launched).out, uid) && AsPicked(t, plan, CommitLists(t, plan, uid, launched).out)
  {
    var groups := ExpandAll(items);
    PlanIsSound(t, site, groups, uid);
    AllAnswered(groups, plan);
    ListsDeliver(t, PasteAll(groups), plan, uid, launched);
    CommittedAsPicked(t, plan, uid, launched);
    AllDelivered(t, site, groups, plan, CommitLists(t, plan, uid, launched).out, uid);
  }

  lemma CommittedIsReady(t: Table, site: Site, items: seq<Item<Req>>, plan: seq<seq<Req>>, uid: nat, launched: set<string>)
    requires Orderly(t, site) && Plain(t, items) && Plan(t, site, ExpandAll(items), uid) == Done(plan)
    requires AllAnswerable(items, plan) && CommitItems(t, items, plan, uid, launched).ok
    ensures CommitLists(t, plan, uid, launched).ok && Ready(t, items, plan, CommitLists(t, plan, uid, launched).out, uid)
  {
    ItemsInARow(t, items, plan, uid, launched);
    CommittedIsDelivered(t, site, items, plan, uid, launched);
    ValidIsHosted(t, site, ExpandAll(items), uid);
  }

  lemma ValidIsHosted(t: Table, site: Site, groups: seq<Group>, uid: nat)
    requires Plan(t, site, groups, uid).Done?
    ensures forall g <- groups :: g.Reqs? ==> WellHosted(g.reqs)
  {
  }

  lemma AllDelivered(t: Table, site: Site, groups: seq<Group>, plan: seq<seq<Req>>, lists: seq<seq<Res>>, uid: nat)
    requires SafeTable(t) && PlanSound.NoDuplicates(site.order) && Plan(t, site, groups, uid) == Done(plan)
    requires |plan| == |groups| && AsPicked(t, plan, lists)
    requires forall i | 0 <= i < |groups| :: DeliversGroup(PasteGroup(groups[i]), lists[i], uid)
    ensures Delivered(groups, lists, uid)
  {
    forall i | 0 <= i < |groups| && groups[i].Node?
      ensures WantsMet(groups[i].wants, lists[i])
    {
      var a := WholePick.PlanPicks(t, site, groups, i, uid);
      assert PickedAs(t, plan[i], lists[i]);
      WantedIsPicked(t, site, groups[i].wants, plan[i], a, lists[i]);
    }
  }

  lemma PlannedIsMet(t: Table, site: Site, items: seq<Item<Req>>, plan: seq<seq<Req>>, uid: nat, schedulers: seq<Scheduler>, answers: seq<bool>)
    requires |answers| == |schedulers| && Orderly(t, site) && Plain(t, items) && Plan(t, site, ExpandAll(items), uid) == Done(plan)
    requires AllAnswerable(items, plan) && PerformPlan(t, items, plan, uid, schedulers, answers).0.Done?
    ensures var out := PerformPlan(t, items, plan, uid, schedulers, answers).0.value;
            |out| == |items| && forall i | 0 <= i < |items| :: ItemMet(items[i], out[i], uid)
  {
    var launched := Launched(schedulers, GpuHosts(Concat(plan)));
    AnswerIsRegrouped(t, items, plan, uid, schedulers, answers);
    CommittedIsReady(t, site, items, plan, uid, launched);
    AllItemsMet(t, items, plan, CommitLists(t, plan, uid, launched).out, uid);
  }

  /** Every item of a request that succeeds is answered by one of its kind, with what it
      asked for, which the user then has. */
  lemma RequestIsMet(t: Table, site: Site, items: seq<Item<Req>>, uid: nat, schedulers: seq<Scheduler>, answers: seq<bool>)
    requires |answers| == |schedulers| && Orderly(t, site) && Plain(t, items)
    requires Perform(t, site, items, uid, schedulers, answers).0.Done?
    ensures var out := Perform(t, site, items, uid, schedulers, answers).0.value;
            |out| == |items| && forall i | 0 <= i < |items| :: ItemMet(items[i], out[i], uid)
  {
    var planned := Plan(t, site, ExpandAll(items), uid);
    PerformFollowsPlan(t, site, items, uid, schedulers, answers, planned);
    PlannedIsMet(t, site, items, planned.value, uid, schedulers, answers);
  }

  // --------------------------------------------------------------- refusals

  /** A scheduler says no that manages the node of a GPU picked. */
  ghost predicate NodeDenied(plan: seq<seq<Req>>, schedulers: seq<Scheduler>, answers: seq<bool>)
    requires |answers| == |schedulers|
  {
    exists i, l, j | 0 <= i < |schedulers| && 0 <= l < |plan| && 0 <= j < |plan[l]| ::
      !answers[i] && plan[l][j].cls == Some(GPU) && plan[l][j].host.Some? && plan[l][j].host.value in schedulers[i].nodes
  }

  lemma {:induction false} InConcatAt(xs: seq<seq<Req>>, x: Req)
    ensures x in Concat(xs) <==> exists l, j | 0 <= l < |xs| && 0 <= j < |xs[l]| :: xs[l][j] == x
  {
    if x in Concat(xs) {
      ConcatMembers(xs, x);
      var l :| 0 <= l < |xs| && x in xs[l];
      var j :| 0 <= j < |xs[l]| && xs[l][j] == x;
    }
    if l, j :| 0 <= l < |xs| && 0 <= j < |xs[l]| && xs[l][j] == x { InConcatOf(xs, l, x); }
  }

  lemma RefusedMeans(plan: seq<seq<Req>>, schedulers: seq<Scheduler>, answers: seq<bool>)
    requires |answers| == |schedulers| && forall q <- Concat(plan) :: Keyed(q)
    ensures Refused(schedulers, answers, GpuHosts(Concat(plan))) <==> NodeDenied(plan, schedulers, answers)
  {
    var qs := Concat(plan);
    if i :| 0 <= i < |schedulers| && !answers[i] && Allocating.Asked(schedulers[i], GpuHosts(qs)) {
      var h :| h in schedulers[i].nodes && h in GpuHosts(qs);
      var q :| q in qs && Keyed(q) && NeedsLauncher(q) && q.host.value == h;
      InConcatAt(plan, q);
      var l, j :| 0 <= l < |plan| && 0 <= j < |plan[l]| && plan[l][j] == q;
    }
    if i, l, j :| 0 <= i < |schedulers| && 0 <= l < |plan| && 0 <= j < |plan[l]| && !answers[i]
                  && plan[l][j].cls == Some(GPU) && plan[l][j].host.Some? && plan[l][j].host.value in schedulers[i].nodes {
      InConcatAt(plan, plan[l][j]);
      assert plan[l][j].host.value in GpuHosts(qs);
      assert Allocating.Asked(schedulers[i], GpuHosts(qs));
    }
  }

  /** How a request ends: an empty one is malformed, one that cannot be planned ends as
      planning does, one that is planned is refused by the schedulers exactly if one of
      them says no that manages the node of a GPU picked; these change nothing. */
  lemma RefusalMeans(t: Table, site: Site, items: seq<Item<Req>>, uid: nat, schedulers: seq<Scheduler>, answers: seq<bool>)
    requires |answers| == |schedulers| && Orderly(t, site) && Plain(t, items)
    ensures var plan, r := Plan(t, site, ExpandAll(items), uid), Perform(t, site, items, uid, schedulers, answers);
            && (items == [] ==> r == (Raised(BadRequest), t))
            && (items != [] && plan.Raised? ==> r == (Raised(plan.error), t))
            && (items != [] && plan.Done? ==>
                  if NodeDenied(plan.value, schedulers, answers) then r == (Raised(SchedulerFailed), t)
                  else r.0.Done? || r.0 == Raised(CommitFailed))
  {
    var plan := Plan(t, site, ExpandAll(items), uid);
    if items != [] {
      PerformFollowsPlan(t, site, items, uid, schedulers, answers, plan);
      if plan.Done? {
        PlanIsSound(t, site, ExpandAll(items), uid);
        SoundIsMarked(t, plan.value, uid);
        RefusedMeans(plan.value, schedulers, answers);
      }
    }
  }

  /** A pick that is keyed and free in the table. */
  predicate PickFree(t: Table, q: Req) { Keyed(q) && KeyOf(q) in t && IsFree(t[KeyOf(q)]) }

  lemma UnmarkedAt(t: Table, plan: seq<seq<Req>>)
    ensures !Marked(t, Concat(plan)) <==> exists l, j | 0 <= l < |plan| && 0 <= j < |plan[l]| :: !PickFree(t, plan[l][j])
  {
    if !Marked(t, Concat(plan)) {
      var q :| q in Concat(plan) && !PickFree(t, q);
      InConcatAt(plan, q);
    }
    if l, j :| 0 <= l < |plan| && 0 <= j < |plan[l]| && !PickFree(t, plan[l][j]) {
      InConcatAt(plan, plan[l][j]);
    }
  }

  lemma UnmarkedRaises(t: Table, items: seq<Item<Req>>, plan: seq<seq<Req>>, uid: nat, schedulers: seq<Scheduler>, answers: seq<bool>)
    requires |answers| == |schedulers| && AllAnswerable(items, plan)
    ensures !Marked(t, Concat(plan)) <==> PerformPlan(t, items, plan, uid, schedulers, answers) == (Raised(InternalError), t)
  {
  }

  /** Whatever is asked, a plan with a pick that is not free, or no resource at all, ends as
      an internal error before anyone is asked, and changes nothing. */
  lemma UnfreePickMeans(t: Table, site: Site, items: seq<Item<Req>>, uid: nat, schedulers: seq<Scheduler>, answers: seq<bool>)
    requires |answers| == |schedulers| && items != [] && Plan(t, site, ExpandAll(items), uid).Done?
    ensures var plan := Plan(t, site, ExpandAll(items), uid).value;
            (exists l, j | 0 <= l < |plan| && 0 <= j < |plan[l]| :: !PickFree(t, plan[l][j]))
            <==> Perform(t, site, items, uid, schedulers, answers) == (Raised(InternalError), t)
  {
    var planned := Plan(t, site, ExpandAll(items), uid);
    PerformFollowsPlan(t, site, items, uid, schedulers, answers, planned);
    UnmarkedAt(t, planned.value);
    UnmarkedRaises(t, items, planned.value, uid, schedulers, answers);
  }

  // -------------------------------------------------------- single requests

  lemma SingleIsPlain(t: Table, q: Req)
    ensures ExpandAll([Item.Single(q)]) == SingleRequests.Alone(q) && Plain(t, [Item.Single(q)])
  {
    var items := [Item.Single(q)];
    Spoiling.SinglesNeverSpoil(items);
    assert items[1..] == [];
    assert Expand(items[0]) == SingleRequests.Alone(q) && Expand(items[0]) + [] == Expand(items[0]);
  }

  /** With managed nodes and willing schedulers a request for one resource is granted
      exactly if a resource on some usable node suits it and has room for it; the user then
      has one that meets it, and otherwise nothing changes. */
  lemma SingleGrantedExactly(t: Table, site: Site, q: Req, uid: nat, schedulers: seq<Scheduler>, answers: seq<bool>)
    requires |answers| == |schedulers| && (forall i | 0 <= i < |answers| :: answers[i]) && AllGpusManaged(t, schedulers)
    requires SingleRequests.Complete(t, site) && q.cls.Some?
    ensures var r := Perform(t, site, [Item.Single(q)], uid, schedulers, answers);
            && (r.0.Done? <==> SingleRequests.Available(t, site, q))
            && (r.0.Done? ==> |r.0.value| == 1 && r.0.value[0].Single? && Meets(q, r.0.value[0].x, uid))
            && (r.0.Raised? ==> r.1 == t)
  {
    var items := [Item.Single(q)];
    SingleIsPlain(t, q);
    SingleRequests.SinglePlannedExactly(t, site, q, uid);
    FairRequestIsAtomic(t, site, items, uid, schedulers, answers);
    if Perform(t, site, items, uid, schedulers, answers).0.Done? {
      RequestIsMet(t, site, items, uid, schedulers, answers);
      assert ItemMet(items[0], Perform(t, site, items, uid, schedulers, answers).0.value[0], uid);
    }
  }
}
