/** One allocation from request to answer, and what it guarantees: a plan that
    succeeds can be committed, a refused request changes nothing, the answer has the
    request's shape and meets its demands. Where the allocator falls short of this,
    the exact condition is given. */
module Allocating {
  import opened Resources
  import opened Ledger
  import opened Matchers
  import opened Planner
  import opened Waiting
  import opened PlanTheorem
  import opened PlanSound
  import opened PlanShape
  import opened LookAhead
  import opened Requests
  import opened Commit

  /** A scheduler manages some nodes. Whether it grants them is not up to it alone:
      its answer is an input of the model. */
  datatype Scheduler = Scheduler(nodes: seq<string>)

  predicate Manages(schedulers: seq<Scheduler>, host: string) { exists s <- schedulers :: host in s.nodes }

  /** The nodes the schedulers are asked for: those of the GPUs picked. */
  function GpuHosts(qs: seq<Req>): set<string> {
    set q | q in qs && Keyed(q) && NeedsLauncher(q) :: q.host.value
  }

  predicate Asked(s: Scheduler, hosts: set<string>) { exists h <- s.nodes :: h in hosts }

  /** A scheduler that is asked for nodes refuses. */
  predicate Refused(schedulers: seq<Scheduler>, answers: seq<bool>, hosts: set<string>)
    requires |answers| == |schedulers|
  {
    exists i | 0 <= i < |schedulers| :: !answers[i] && Asked(schedulers[i], hosts)
  }

  function Launched(schedulers: seq<Scheduler>, hosts: set<string>): set<string> {
    set h | h in hosts && Manages(schedulers, h)
  }

  /** The last look at the table before schedulers are asked. */
  predicate Marked(t: Table, qs: seq<Req>) {
    forall q <- qs :: Keyed(q) && KeyOf(q) in t && IsFree(t[KeyOf(q)])
  }

  /** What becomes of a plan, and the table it leaves behind. */
  function PerformPlan(t: Table, items: seq<Item<Req>>, plan: seq<seq<Req>>, uid: nat, schedulers: seq<Scheduler>, answers: seq<bool>)
    : (r: (Outcome<seq<Item<Res>>>, Table))
    requires |answers| == |schedulers| && AllAnswerable(items, plan)
  {
    var hosts := GpuHosts(Concat(plan));
    if !Marked(t, Concat(plan)) then (Raised(InternalError), t)
    else if Refused(schedulers, answers, hosts) then (Raised(SchedulerFailed), t)
    else
      var s := CommitItems(t, items, plan, uid, Launched(schedulers, hosts));
      (if s.ok then Done(s.out) else Raised(CommitFailed), s.table)
  }

  /** The outcome of a request, and the table it leaves behind. */
  function Perform(t: Table, site: Site, items: seq<Item<Req>>, uid: nat, schedulers: seq<Scheduler>, answers: seq<bool>)
    : (r: (Outcome<seq<Item<Res>>>, Table))
    requires |answers| == |schedulers|
  {
    if items == [] then (Raised(BadRequest), t)
    else
      match Plan(t, site, ExpandAll(items), uid)
      case Raised(e) => (Raised(e), t)
      case Done(plan) =>
        PlanAnswers(t, site, items, uid);
        PerformPlan(t, items, plan, uid, schedulers, answers)
  }

  lemma PerformFollowsPlan(t: Table, site: Site, items: seq<Item<Req>>, uid: nat, schedulers: seq<Scheduler>, answers: seq<bool>,
                           planned: Outcome<seq<seq<Req>>>)
    requires |answers| == |schedulers| && items != [] && planned == Plan(t, site, ExpandAll(items), uid)
    ensures planned.Raised? ==> Perform(t, site, items, uid, schedulers, answers) == (Raised(planned.error), t)
    ensures planned.Done? ==> AllAnswerable(items, planned.value)
    ensures planned.Done? ==> Perform(t, site, items, uid, schedulers, answers) == PerformPlan(t, items, planned.value, uid, schedulers, answers)
  {
    if planned.Done? { PlanAnswers(t, site, items, uid); }
  }

  lemma PlanAnswers(t: Table, site: Site, items: seq<Item<Req>>, uid: nat)
    requires Plan(t, site, ExpandAll(items), uid).Done?
    ensures AllAnswerable(items, Plan(t, site, ExpandAll(items), uid).value)
  {
    PlanHasShape(t, site, ExpandAll(items), uid);
    SameLengthsAnswer(items, Plan(t, site, ExpandAll(items), uid).value);
  }

  // --------------------------------------------------- when a plan commits

  /** The request puts no index-only list beside a list, the first that waits for its
      host, with two open requests and, if it asks for whole nodes, every resource
      matches itself. */
  ghost predicate Plain(t: Table, items: seq<Item<Req>>) {
    && !Spoilable(PasteAll(ExpandAll(items)))
    && ((exists g <- ExpandAll(items) :: g.Node?) ==> SelfMatching(t))
  }

  ghost predicate Orderly(t: Table, site: Site) { SafeTable(t) && NoDuplicates(site.order) }

  /** The picks of a sound plan pass the last look at the table. */
  lemma SoundIsMarked(t: Table, plan: seq<seq<Req>>, uid: nat)
    requires CanCommit(t, plan, uid)
    ensures Marked(t, Concat(plan))
  {
    var qs := Concat(plan);
    var gs := GrantsOf(qs);
    CommitByKey(t, gs, uid);
    forall q <- qs
      ensures KeyOf(q) in t && IsFree(t[KeyOf(q)])
    {
      PlanCommits.GrantMember(qs, q);
      var k := KeyOf(q);
      assert k in t;
      OnHas(gs, Grant(k, q));
      assert Replay(t[k], On(gs, k), uid).Some?;
    }
  }

  lemma {:induction false} OnHas(gs: seq<Grant>, g: Grant)
    requires g in gs
    ensures On(gs, g.key) != []
  {
    if gs[0].key != g.key { OnHas(gs[1..], g); }
  }

  /** Every GPU picked is on a node some scheduler manages. */
  ghost predicate GpusManaged(qs: seq<Req>, schedulers: seq<Scheduler>) {
    forall q <- qs :: Keyed(q) && NeedsLauncher(q) ==> Manages(schedulers, q.host.value)
  }

  lemma LaunchedIsManaged(qs: seq<Req>, schedulers: seq<Scheduler>)
    ensures AllLaunched(qs, Launched(schedulers, GpuHosts(qs))) <==> GpusManaged(qs, schedulers)
  {
    forall q <- qs | Keyed(q) && NeedsLauncher(q)
      ensures q.host.value in GpuHosts(qs)
    {
    }
  }

  /** Once planning and the schedulers have agreed, the commit succeeds exactly when
      each GPU picked is on a managed node and no node asked for by name turned out to
      be another. When it fails, it leaves resources taken that no allocation holds.
      A caller who does not have the plan can check Fair, which excludes both. */
  lemma CommitSucceedsExactly(t: Table, site: Site, items: seq<Item<Req>>, uid: nat, schedulers: seq<Scheduler>, answers: seq<bool>)
    requires |answers| == |schedulers| && items != [] && Orderly(t, site) && Plain(t, items)
    requires Plan(t, site, ExpandAll(items), uid).Done?
    requires !Refused(schedulers, answers, GpuHosts(Concat(Plan(t, site, ExpandAll(items), uid).value)))
    ensures var plan, r := Plan(t, site, ExpandAll(items), uid).value, Perform(t, site, items, uid, schedulers, answers);
            && AllAnswerable(items, plan)
            && (r.0.Done? <==> GpusManaged(Concat(plan), schedulers) && !AnyMisplaced(items, plan))
            && (r.0.Raised? ==> r.1 != t)
            && (r.0.Done? ==> CommitAll(t, GrantsOf(Concat(plan)), uid) == Some(r.1))
  {
    var plan := Plan(t, site, ExpandAll(items), uid).value;
    var launched := Launched(schedulers, GpuHosts(Concat(plan)));
    PlanAnswers(t, site, items, uid);
    PlanIsSound(t, site, ExpandAll(items), uid);
    SoundIsMarked(t, plan, uid);
    ItemsInARow(t, items, plan, uid, launched);
    ListsInARow(t, plan, uid, launched);
    CommitReqsIs(t, Concat(plan), uid, launched);
    LaunchedIsManaged(Concat(plan), schedulers);
    if !CommitItems(t, items, plan, uid, launched).ok { FailedCommitLeaks(t, items, plan, uid, launched); }
  }

  // --------------------------------------------------------------- atomicity

  /** Every node with a GPU is managed by some scheduler. */
  ghost predicate AllGpusManaged(t: Table, schedulers: seq<Scheduler>) {
    forall k <- t :: k.cls == GPU ==> Manages(schedulers, k.host)
  }

  predicate NoNamedNodes(items: seq<Item<Req>>) { forall item <- items :: item.WholeNode? ==> item.host.None? }

  /** What the allocator needs of its caller and its configuration to be atomic. */
  ghost predicate Fair(t: Table, items: seq<Item<Req>>, schedulers: seq<Scheduler>) {
    Plain(t, items) && AllGpusManaged(t, schedulers) && NoNamedNodes(items)
  }

  lemma {:induction false} NothingMisplaced(items: seq<Item<Req>>, plan: seq<seq<Req>>)
    requires AllAnswerable(items, plan) && NoNamedNodes(items)
    requires |plan| == |ExpandAll(items)| && forall i | 0 <= i < |plan| && ExpandAll(items)[i].Node? :: SameHost(plan[i])
    ensures !AnyMisplaced(items, plan)
  {
    if items != [] {
      var w, groups := |Lists(items[0])|, ExpandAll(items);
      assert items[0] in items && groups[w..] == ExpandAll(items[1..]);
      forall i | 0 <= i < |plan[w..]| && groups[w..][i].Node?
        ensures SameHost(plan[w..][i])
      {
        assert plan[w..][i] == plan[w + i] && groups[w..][i] == groups[w + i];
      }
      NothingMisplaced(items[1..], plan[w..]);
      if items[0].WholeNode? { assert groups[0].Node? && SameHost(plan[0]); }
    }
  }

  lemma NodesOnOneHost(groups: seq<Group>, plan: seq<seq<Req>>)
    requires |plan| == |groups| && forall i | 0 <= i < |groups| :: AnsweredGroup(PasteGroup(groups[i]), plan[i])
    ensures forall i | 0 <= i < |plan| && groups[i].Node? :: SameHost(plan[i])
  {
    forall i | 0 <= i < |plan| && groups[i].Node?
      ensures SameHost(plan[i])
    {
      assert AnsweredGroup(PasteGroup(groups[i]), plan[i]);
    }
  }

  lemma PicksAreManaged(t: Table, qs: seq<Req>, schedulers: seq<Scheduler>)
    requires AllGpusManaged(t, schedulers) && Marked(t, qs)
    ensures GpusManaged(qs, schedulers)
  {
    forall q <- qs | Keyed(q) && NeedsLauncher(q)
      ensures Manages(schedulers, q.host.value)
    {
      assert KeyOf(q) in t;
    }
  }

  /** Atomicity: a fair request that is refused, for whatever reason, leaves the table
      as it was; it is refused exactly when planning fails or a scheduler refuses, so a
      plan that succeeds is always committed; and then exactly the plan is committed. */
  lemma FairRequestIsAtomic(t: Table, site: Site, items: seq<Item<Req>>, uid: nat, schedulers: seq<Scheduler>, answers: seq<bool>)
    requires |answers| == |schedulers| && Orderly(t, site) && Fair(t, items, schedulers)
    ensures var plan, r := Plan(t, site, ExpandAll(items), uid), Perform(t, site, items, uid, schedulers, answers);
            && (r.0.Raised? ==> r.1 == t)
            && (r.0.Done? <==> items != [] && plan.Done? && !Refused(schedulers, answers, GpuHosts(Concat(plan.value))))
            && (r.0.Done? ==> CommitAll(t, GrantsOf(Concat(plan.value)), uid) == Some(r.1))
  {
    var plan := Plan(t, site, ExpandAll(items), uid);
    if items != [] && plan.Done? {
      PlanAnswers(t, site, items, uid);
      PlanIsSound(t, site, ExpandAll(items), uid);
      SoundIsMarked(t, plan.value, uid);
      if !Refused(schedulers, answers, GpuHosts(Concat(plan.value))) {
        CommitSucceedsExactly(t, site, items, uid, schedulers, answers);
        NodesOnOneHost(ExpandAll(items), plan.value);
        NothingMisplaced(items, plan.value);
        PicksAreManaged(t, Concat(plan.value), schedulers);
      }
    }
  }

  // --------------------------------------------------------- what is answered

  lemma {:induction false} SnapshotsAnswer(t: Table, qs: seq<Req>, uid: nat, launched: set<string>, i: nat)
    requires SafeTable(t) && CommitReqs(t, qs, uid, launched).ok && i < |qs|
    ensures var r := CommitReqs(t, qs, uid, launched).out[i];
            && Keyed(qs[i]) && r.Key() == KeyOf(qs[i]) && TypeSearchMatch(r.attrs, qs[i])
            && uid in r.owners && r.shared == qs[i].shared && Safe(r)
            && r.Key() in t && r.attrs == t[r.Key()].attrs
    decreases |qs|
  {
    var k := KeyOf(qs[0]);
    var t' := t[k := Grow(t[k], qs[0], uid)];
    GrowSafe(t[k], qs[0], uid);
    assert uid == t'[k].owners[|t[k].owners|];
    if i > 0 { SnapshotsAnswer(t', qs[1..], uid, launched, i - 1); }
  }

  /** A demand met by the resolved request is met for the request it came from. */
  lemma ResolvedDemand(a: Attrs, q: Req, p: Req)
    requires FillsIn(q, p) && TypeSearchMatch(a, p)
    ensures TypeSearchMatch(a, q) && q.shared == p.shared
  {
  }

  /** A resource handed out for a request: it is what was asked for, held by the user
      and shared exactly if that was asked for. */
  ghost predicate Delivers(q: Req, r: Res, uid: nat) {
    TypeSearchMatch(r.attrs, q) && uid in r.owners && r.shared == q.shared && Safe(r)
  }

  ghost predicate OnOneHost(rs: seq<Res>) {
    forall i, j | 0 <= i < |rs| && 0 <= j < |rs| :: rs[i].Key().host == rs[j].Key().host
  }

  /** What a group gets: each position what it asks for; a list that is not fixed
      throughout, and a node, on one host. */
  ghost predicate DeliversGroup(g: Group, rs: seq<Res>, uid: nat) {
    if g.Reqs? then
      && |rs| == |g.reqs| && (forall j | 0 <= j < |rs| :: Delivers(g.reqs[j], rs[j], uid))
      && ((forall q <- g.reqs :: DOF(q) == 0) || OnOneHost(rs))
    else OnOneHost(rs) && forall j | 0 <= j < |rs| :: uid in rs[j].owners
  }

  lemma ListDelivers(t: Table, g: Group, x: seq<Req>, uid: nat, launched: set<string>)
    requires SafeTable(t) && CommitReqs(t, x, uid, launched).ok && AnsweredGroup(g, x)
    ensures DeliversGroup(g, CommitReqs(t, x, uid, launched).out, uid)
  {
    var rs := CommitReqs(t, x, uid, launched).out;
    forall j | 0 <= j < |rs|
      ensures uid in rs[j].owners && rs[j].Key() == KeyOf(x[j]) && x[j].host == Some(rs[j].Key().host)
      ensures g.Reqs? ==> Delivers(g.reqs[j], rs[j], uid)
    {
      SnapshotsAnswer(t, x, uid, launched, j);
      if g.Reqs? { ResolvedDemand(rs[j].attrs, g.reqs[j], x[j]); }
    }
  }

  lemma {:induction false} ListsDeliver(t: Table, groups: seq<Group>, plan: seq<seq<Req>>, uid: nat, launched: set<string>)
    requires SafeTable(t) && CommitLists(t, plan, uid, launched).ok && |plan| == |groups|
    requires forall i | 0 <= i < |groups| :: AnsweredGroup(groups[i], plan[i])
    ensures var out := CommitLists(t, plan, uid, launched).out;
            forall i | 0 <= i < |groups| :: DeliversGroup(groups[i], out[i], uid)
    decreases |plan|
  {
    if plan != [] {
      var s := CommitReqs(t, plan[0], uid, launched);
      assert AnsweredGroup(groups[0], plan[0]);
      ListDelivers(t, groups[0], plan[0], uid, launched);
      ReqsStaySafe(t, plan[0], uid, launched);
      ListsDeliver(s.table, groups[1..], plan[1..], uid, launched);
      var rest := CommitLists(s.table, plan[1..], uid, launched).out;
      forall i | 0 <= i < |groups|
        ensures DeliversGroup(groups[i], ([s.out] + rest)[i], uid)
      {
        if i > 0 { assert groups[i] == groups[1..][i - 1] && DeliversGroup(groups[1..][i - 1], rest[i - 1], uid); }
      }
    }
  }

  lemma {:induction false} ReqsStaySafe(t: Table, qs: seq<Req>, uid: nat, launched: set<string>)
    requires SafeTable(t)
    ensures SafeTable(CommitReqs(t, qs, uid, launched).table) && SameHardware(t, CommitReqs(t, qs, uid, launched).table)
    decreases |qs|
  {
    if qs != [] && Served?(t, qs[0]) {
      var k := KeyOf(qs[0]);
      GrowSafe(t[k], qs[0], uid);
      ReqsStaySafe(t[k := Grow(t[k], qs[0], uid)], qs[1..], uid, launched);
    }
  }

  /** The lists a successful allocation commits, before they are regrouped. */
  lemma AnswerIsRegrouped(t: Table, items: seq<Item<Req>>, plan: seq<seq<Req>>, uid: nat, schedulers: seq<Scheduler>, answers: seq<bool>)
    requires |answers| == |schedulers| && AllAnswerable(items, plan) && PerformPlan(t, items, plan, uid, schedulers, answers).0.Done?
    ensures var s := CommitLists(t, plan, uid, Launched(schedulers, GpuHosts(Concat(plan))));
            s.ok && AllAnswerable(items, s.out)
            && PerformPlan(t, items, plan, uid, schedulers, answers) == (Done(RegroupAll(items, s.out)), s.table)
  {
    ItemsInARow(t, items, plan, uid, Launched(schedulers, GpuHosts(Concat(plan))));
  }

  /** The answer to a request has its shape, item by item and list by list, and
      delivers what each list asks for. */
  lemma AnswerDelivers(t: Table, site: Site, items: seq<Item<Req>>, uid: nat, schedulers: seq<Scheduler>, answers: seq<bool>)
    requires |answers| == |schedulers| && Orderly(t, site) && Plain(t, items)
    requires Perform(t, site, items, uid, schedulers, answers).0.Done?
    ensures var out, groups := Perform(t, site, items, uid, schedulers, answers).0.value, PasteAll(ExpandAll(items));
            && SameKinds(items, out)
            && |AllLists(out)| == |groups|
            && forall i | 0 <= i < |groups| :: DeliversGroup(groups[i], AllLists(out)[i], uid)
  {
    var groups := ExpandAll(items);
    PerformFollowsPlan(t, site, items, uid, schedulers, answers, Plan(t, site, groups, uid));
    var plan := Plan(t, site, groups, uid).value;
    var launched := Launched(schedulers, GpuHosts(Concat(plan)));
    AnswerIsRegrouped(t, items, plan, uid, schedulers, answers);
    PlanIsSound(t, site, groups, uid);
    AllAnswered(groups, plan);
    ListsDeliver(t, PasteAll(groups), plan, uid, launched);
    RegroupInvertsExpand(items, CommitLists(t, plan, uid, launched).out);
  }

  lemma AllAnswered(groups: seq<Group>, plan: seq<seq<Req>>)
    requires |plan| == |groups| && forall i | 0 <= i < |groups| :: AnsweredGroup(PasteGroup(groups[i]), plan[i])
    ensures forall i | 0 <= i < |groups| :: AnsweredGroup(PasteAll(groups)[i], plan[i])
  {
  }

  // ------------------------------------------------------- the ledger's view

  /** All keys an answer holds, in order. */
  function HeldKeys(out: seq<Item<Res>>): seq<Key> { KeysIn(Concat(AllLists(out))) }

  /** What a commit that succeeds hands out is what it took. */
  lemma HandedOutIsTaken(t: Table, items: seq<Item<Req>>, plan: seq<seq<Req>>, uid: nat, launched: set<string>)
    requires (forall k <- t :: t[k].Key() == k) && AllAnswerable(items, plan) && CommitItems(t, items, plan, uid, launched).ok
    requires forall q <- Concat(plan) :: Keyed(q)
    ensures CommitAll(t, GrantsOf(Concat(plan)), uid) == Some(CommitItems(t, items, plan, uid, launched).table)
    ensures HeldKeys(CommitItems(t, items, plan, uid, launched).out) == KeysOf(GrantsOf(Concat(plan)))
  {
    ItemsInARow(t, items, plan, uid, launched);
    ListsInARow(t, plan, uid, launched);
    CommitReqsIs(t, Concat(plan), uid, launched);
    SnapshotKeys(t, Concat(plan), uid, launched);
    RegroupInvertsExpand(items, CommitLists(t, plan, uid, launched).out);
  }

  lemma PlanIsTake(t: Table, items: seq<Item<Req>>, plan: seq<seq<Req>>, uid: nat, schedulers: seq<Scheduler>, answers: seq<bool>, live: seq<Holding>)
    requires |answers| == |schedulers| && SafeTable(t) && AllAnswerable(items, plan) && CanCommit(t, plan, uid)
    requires PerformPlan(t, items, plan, uid, schedulers, answers).0.Done?
    ensures var r := PerformPlan(t, items, plan, uid, schedulers, answers);
            Next(State(t, live), Take(uid, GrantsOf(Concat(plan)))) == State(r.1, live + [Held(uid, HeldKeys(r.0.value))])
  {
    HandedOutIsTaken(t, items, plan, uid, Launched(schedulers, GpuHosts(Concat(plan))));
  }

  /** A successful allocation is one step of the ledger: it takes the grants of the
      plan, and holds what it answers. */
  lemma PerformIsTake(t: Table, site: Site, items: seq<Item<Req>>, uid: nat, schedulers: seq<Scheduler>, answers: seq<bool>, live: seq<Holding>)
    requires |answers| == |schedulers| && Orderly(t, site) && Plain(t, items)
    requires Perform(t, site, items, uid, schedulers, answers).0.Done?
    ensures var plan, r := Plan(t, site, ExpandAll(items), uid).value, Perform(t, site, items, uid, schedulers, answers);
            Next(State(t, live), Take(uid, GrantsOf(Concat(plan)))) == State(r.1, live + [Held(uid, HeldKeys(r.0.value))])
  {
    var planned := Plan(t, site, ExpandAll(items), uid);
    PerformFollowsPlan(t, site, items, uid, schedulers, answers, planned);
    PlanIsSound(t, site, ExpandAll(items), uid);
    PlanIsTake(t, items, planned.value, uid, schedulers, answers, live);
  }

  /** Even a commit that fails half way leaves sharing safe. */
  lemma {:induction false} ItemsStaySafe(t: Table, items: seq<Item<Req>>, plan: seq<seq<Req>>, uid: nat, launched: set<string>)
    requires SafeTable(t) && AllAnswerable(items, plan)
    ensures var t' := CommitItems(t, items, plan, uid, launched).table;
            SafeTable(t') && SameHardware(t, t')
    decreases |items|
  {
    if items != [] {
      var w := |Lists(items[0])|;
      ListsInARow(t, plan[..w], uid, launched);
      ReqsStaySafe(t, Concat(plan[..w]), uid, launched);
      var s := CommitItem(t, items[0], plan[..w], uid, launched);
      if s.ok { ItemsStaySafe(s.table, items[1..], plan[w..], uid, launched); }
    }
  }

  lemma PerformStaysSafe(t: Table, site: Site, items: seq<Item<Req>>, uid: nat, schedulers: seq<Scheduler>, answers: seq<bool>)
    requires |answers| == |schedulers| && SafeTable(t)
    ensures var t' := Perform(t, site, items, uid, schedulers, answers).1;
            SafeTable(t') && SameHardware(t, t')
  {
    if items != [] && Plan(t, site, ExpandAll(items), uid).Done? {
      PlanAnswers(t, site, items, uid);
      var plan := Plan(t, site, ExpandAll(items), uid).value;
      ItemsStaySafe(t, items, plan, uid, Launched(schedulers, GpuHosts(Concat(plan))));
    }
  }

  // ----------------------------------------------- a mixed request that leaks

  function MixedItems(a: string): seq<Item<Req>> {
    [Several(MixedRequest(a)[0].reqs), Several(MixedRequest(a)[1].reqs)]
  }

  lemma MixedItemsExpand(a: string)
    ensures ExpandAll(MixedItems(a)) == MixedRequest(a)
  {
    var x, y := MixedItems(a)[0], MixedItems(a)[1];
    assert MixedItems(a)[1..] == [y] && [y][1..] == [];
    assert Expand(x) == [MixedRequest(a)[0]] && Expand(y) == [MixedRequest(a)[1]];
    assert ExpandAll([y]) == Expand(y);
  }

  /** Planned, marked and granted, but not committed: the request fails and leaks. */
  lemma RefusedCommitLeaks(t: Table, site: Site, items: seq<Item<Req>>, plan: seq<seq<Req>>, uid: nat,
                           schedulers: seq<Scheduler>, answers: seq<bool>)
    requires |answers| == |schedulers| && (forall i | 0 <= i < |answers| :: answers[i])
    requires items != [] && Plan(t, site, ExpandAll(items), uid) == Done(plan) && Marked(t, Concat(plan))
    requires CommitAll(t, GrantsOf(Concat(plan)), uid).None?
    requires items[0].Several? && plan != [] && plan[0] != [] && Served?(t, plan[0][0])
    ensures Perform(t, site, items, uid, schedulers, answers).0 == Raised(CommitFailed)
    ensures Perform(t, site, items, uid, schedulers, answers).1 != t
  {
    var launched := Launched(schedulers, GpuHosts(Concat(plan)));
    PlanAnswers(t, site, items, uid);
    ItemsInARow(t, items, plan, uid, launched);
    ListsInARow(t, plan, uid, launched);
    CommitReqsIs(t, Concat(plan), uid, launched);
    FirstItemStays(t, items, plan, uid, launched);
  }

  lemma DoublePlanIsMarked(a: string, b: string)
    requires a != b
    ensures Marked(Cluster(a, b), Concat(DoublePlan(a, b)))
    ensures DoublePlan(a, b)[0] != [] && Served?(Cluster(a, b), DoublePlan(a, b)[0][0])
  {
    var x, y := DoublePlan(a, b)[0][0], DoublePlan(a, b)[1][0];
    ConcatOfThree(x, y);
    assert DoublePlan(a, b) == [[x], [y, y]];
    assert IsFree(Cluster(a, b)[KeyOf(x)]) && IsFree(Cluster(a, b)[KeyOf(y)]);
  }

  lemma ConcatOfThree<T>(x: T, y: T)
    ensures forall z <- Concat([[x], [y, y]]) :: z == x || z == y
  {
    assert [[x], [y, y]][1..] == [[y, y]] && [[y, y]][1..] == [];
    assert Concat([[y, y]]) == [y, y] && Concat([[x], [y, y]]) == [x] + [y, y];
  }

  /** An index-only list beside a list of two for one host can be accepted by planning
      and by all schedulers, be refused in the middle of the commit, and leave
      resources taken. */
  lemma MixedRequestLeaks(a: string, b: string, uid: nat, schedulers: seq<Scheduler>, answers: seq<bool>)
    requires a != b && |answers| == |schedulers| && forall i | 0 <= i < |answers| :: answers[i]
    ensures Perform(Cluster(a, b), TwoNodes(a, b), MixedItems(a), uid, schedulers, answers).0 == Raised(CommitFailed)
    ensures Perform(Cluster(a, b), TwoNodes(a, b), MixedItems(a), uid, schedulers, answers).1 != Cluster(a, b)
  {
    MixedItemsExpand(a);
    MixedPlanCannotCommit(a, b, uid);
    DoublePlanIsMarked(a, b);
    RefusedCommitLeaks(Cluster(a, b), TwoNodes(a, b), MixedItems(a), DoublePlan(a, b), uid, schedulers, answers);
  }

  /** What the first item of a request took is still taken at the end. */
  lemma FirstItemStays(t: Table, items: seq<Item<Req>>, plan: seq<seq<Req>>, uid: nat, launched: set<string>)
    requires items != [] && AllAnswerable(items, plan) && items[0].Several? && plan[0] != [] && Served?(t, plan[0][0])
    ensures CommitItems(t, items, plan, uid, launched).table != t
  {
    var now := plan[..1];
    assert now[1..] == [] && Concat(now) == plan[0];
    ListsInARow(t, now, uid, launched);
    OwnersWentUp(t, plan[0], uid, launched);
    var s := CommitItem(t, items[0], now, uid, launched);
    if s.ok { ItemsLoseNone(s.table, items[1..], plan[1..], uid, launched); }
  }
}
