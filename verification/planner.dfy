/** How the allocator plans a request. Planning works on copies of the free
    resources: fixed requests first, then lists with an index but no host, then
    lists with a host, then the rest, whole nodes included. The functions here are
    the specification the allocator's loops are proved against. */
module Planner {
  import opened Resources
  import opened Ledger
  import opened Matchers
  import opened MatchingSteps

  /** One entry of an expanded request: a list of resources that belong together,
      or a whole node, which may list resources the node has to have. */
  datatype Group = Reqs(reqs: seq<Req>) | Node(host: Option<string>, wants: seq<Req>)

  datatype Error =
    | BadRequest | UnknownResource | Unavailable | Busy | UserError | InternalError | SchedulerFailed | CommitFailed

  datatype Outcome<+T> = Done(value: T) | Raised(error: Error)

  datatype NodeInfo = NodeInfo(bias: int, idx: int)

  /** What planning knows besides the table: an order of its keys, the nodes with
      their weights when free, the nodes that are down, and the nodes the caller
      wants to use (all if none is named). */
  datatype Site = Site(order: seq<Key>, nodes: map<string, NodeInfo>, whenFree: map<string, int>,
                       unusable: set<string>, candidates: set<string>)

  /** The free resources of one node. */
  datatype NodeAvail = NodeAvail(name: string, res: seq<Res>)

  /** groups are the caller's requests, which matching writes into; chosen[i] is
      what has been picked for group i. */
  datatype PlanState = PlanState(groups: seq<Group>, avail: seq<NodeAvail>, chosen: seq<Option<seq<Req>>>)

  // --------------------------------------------------------- classification

  function FirstHost(reqs: seq<Req>): Option<string> {
    if reqs == [] then None else if reqs[0].host.Some? then reqs[0].host else FirstHost(reqs[1..])
  }

  predicate OneHost(reqs: seq<Req>) { forall q <- reqs :: q.host.Some? ==> q.host == FirstHost(reqs) }

  /** A list over several hosts must be fixed throughout. */
  predicate WellHosted(reqs: seq<Req>) { OneHost(reqs) || forall q <- reqs :: DOF(q) == 0 }

  /** If a list names one host, all of it is meant to be there. */
  function Paste(reqs: seq<Req>): seq<Req> {
    if FirstHost(reqs).Some? && OneHost(reqs) then OnHosts(reqs, FirstHost(reqs).value) else reqs
  }

  function PasteGroup(g: Group): Group { if g.Reqs? then Reqs(Paste(g.reqs)) else g }

  function PasteAll(groups: seq<Group>): seq<Group> {
    seq(|groups|, i requires 0 <= i < |groups| => PasteGroup(groups[i]))
  }

  function MaxDOF(reqs: seq<Req>): nat {
    if reqs == [] then 0
    else if DOF(reqs[0]) > MaxDOF(reqs[1..]) then DOF(reqs[0]) else MaxDOF(reqs[1..])
  }

  function GroupDOF(g: Group): nat { if g.Reqs? then MaxDOF(g.reqs) else 3 }

  function GroupReqs(g: Group): seq<Req> { if g.Reqs? then g.reqs else [] }

  /** The indices, from n on, of the groups with d degrees of freedom. */
  function WithDOF(groups: seq<Group>, d: nat, n: nat): seq<nat>
    requires n <= |groups|
    decreases |groups| - n
  {
    if n == |groups| then []
    else (if GroupDOF(groups[n]) == d then [n] else []) + WithDOF(groups, d, n + 1)
  }

  /** The fixed requests of the groups with d degrees of freedom. */
  function FixedWithDOF(groups: seq<Group>, d: nat): seq<Req> {
    if groups == [] then []
    else (if GroupDOF(groups[0]) == d then FixedOf(GroupReqs(groups[0])) else []) + FixedWithDOF(groups[1..], d)
  }

  function FixedByDOF(groups: seq<Group>): seq<Req> {
    FixedWithDOF(groups, 0) + FixedWithDOF(groups, 1) + FixedWithDOF(groups, 2) + FixedWithDOF(groups, 3)
  }

  function FixedAll(groups: seq<Group>): seq<Req> {
    if groups == [] then [] else FixedOf(GroupReqs(groups[0])) + FixedAll(groups[1..])
  }

  // ------------------------------------------------------------- validation

  predicate SameTarget(p: Req, q: Req) { p.cls == q.cls && p.idx == q.idx && p.host == q.host }

  /** A resource may be named more than once only if every time as shared. */
  predicate NoClash(fixed: seq<Req>) {
    forall i, j | 0 <= i < j < |fixed| :: SameTarget(fixed[i], fixed[j]) ==> fixed[i].shared && fixed[j].shared
  }

  function CheckFixed(t: Table, site: Site, q: Req): Option<Error> {
    if !Keyed(q) || KeyOf(q) !in t then Some(UnknownResource)
    else
      var r := t[KeyOf(q)];
      if r.Key().host in site.unusable then Some(Unavailable)
      else if !IsFree(r) then Some(Busy)
      else if !TypeSearchMatch(r.attrs, q) then Some(UserError)
      else if site.candidates != {} && r.Key().host !in site.candidates then Some(Unavailable)
      else if !q.shared && r.shared then Some(Busy)
      else if q.shared && !Sharable(r.attrs) then Some(Busy)
      else None
  }

  /** The first complaint about the fixed requests from n on. A resource named
      several times is checked against the first request only. */
  function CheckAllFixed(t: Table, site: Site, fixed: seq<Req>, n: nat): Option<Error>
    requires n <= |fixed|
    decreases |fixed| - n
  {
    if n == |fixed| then None
    else if exists j | 0 <= j < n :: SameTarget(fixed[j], fixed[n]) then CheckAllFixed(t, site, fixed, n + 1)
    else if CheckFixed(t, site, fixed[n]).Some? then CheckFixed(t, site, fixed[n])
    else CheckAllFixed(t, site, fixed, n + 1)
  }

  function Validate(t: Table, site: Site, groups: seq<Group>): Option<Error> {
    if exists g <- groups :: g.Reqs? && !WellHosted(g.reqs) then Some(BadRequest)
    else
      var fixed := FixedAll(PasteAll(groups));
      if !NoClash(fixed) then Some(BadRequest) else CheckAllFixed(t, site, fixed, 0)
  }

  // ----------------------------------------------------------- availability

  predicate Eligible(site: Site, k: Key) {
    k.host !in site.unusable && (site.candidates == {} || k.host in site.candidates)
  }

  function FreePool(t: Table, site: Site): Table { map k | k in t && Eligible(site, k) && IsFree(t[k]) :: t[k] }

  function Hosts(order: seq<Key>, site: Site): seq<string> {
    if order == [] then []
    else
      var hosts, k := Hosts(order[..|order| - 1], site), order[|order| - 1];
      if Eligible(site, k) && k.host !in hosts then hosts + [k.host] else hosts
  }

  function FreeOn(order: seq<Key>, pool: Table, host: string): seq<Res> {
    if order == [] then []
    else
      (if order[0].host == host && order[0] in pool && IsFree(pool[order[0]]) then [pool[order[0]]] else [])
      + FreeOn(order[1..], pool, host)
  }

  function AvailOn(order: seq<Key>, pool: Table, hosts: seq<string>): seq<NodeAvail> {
    seq(|hosts|, i requires 0 <= i < |hosts| => NodeAvail(hosts[i], FreeOn(order, pool, hosts[i])))
  }

  // ---------------------------------------------------------------- sorting

  function InsertRes(r: Res, rs: seq<Res>): seq<Res> {
    if rs == [] || Weight(r) <= Weight(rs[0]) then [r] + rs else [rs[0]] + InsertRes(r, rs[1..])
  }

  /** Stable sort by weight, lightest first. */
  function SortRes(rs: seq<Res>): seq<Res> {
    if rs == [] then [] else InsertRes(rs[0], SortRes(rs[1..]))
  }

  function TotalWeight(rs: seq<Res>): int { if rs == [] then 0 else Weight(rs[0]) + TotalWeight(rs[1..]) }

  function Info(site: Site, name: string): NodeInfo { if name in site.nodes then site.nodes[name] else NodeInfo(0, 0) }

  /** Node order: by the node's own weight, then by the weight of what it has
      free, then by index. */
  predicate NodeLeq(site: Site, a: NodeAvail, b: NodeAvail) {
    var i, j, v, w := Info(site, a.name), Info(site, b.name), TotalWeight(a.res), TotalWeight(b.res);
    i.bias < j.bias || (i.bias == j.bias && (v < w || (v == w && i.idx <= j.idx)))
  }

  function InsertNode(site: Site, a: NodeAvail, avail: seq<NodeAvail>): seq<NodeAvail> {
    if avail == [] || NodeLeq(site, a, avail[0]) then [a] + avail
    else [avail[0]] + InsertNode(site, a, avail[1..])
  }

  function SortAvail(site: Site, avail: seq<NodeAvail>): seq<NodeAvail> {
    if avail == [] then []
    else InsertNode(site, avail[0].(res := SortRes(avail[0].res)), SortAvail(site, avail[1..]))
  }

  // ------------------------------------------------------------- placements

  /** Put picks, in order, where reqs has freedom. */
  function Fill(reqs: seq<Req>, picks: seq<Req>): seq<Req> {
    if reqs == [] then []
    else if DOF(reqs[0]) == 0 then [reqs[0]] + Fill(reqs[1..], picks)
    else if picks == [] then reqs
    else [picks[0]] + Fill(reqs[1..], picks[1..])
  }

  predicate InRange(todo: seq<nat>, n: nat) { forall i | 0 <= i < |todo| :: todo[i] < n }

  predicate Shaped(st: PlanState) { |st.groups| == |st.chosen| }

  /** Group g gets what chosen says, and node n keeps rest. */
  function Accept(st: PlanState, g: nat, n: nat, chosen: seq<Req>, rest: seq<Res>): (st': PlanState)
    requires Shaped(st) && g < |st.groups| && n < |st.avail|
    ensures Shaped(st') && |st'.groups| == |st.groups|
  {
    st.(avail := st.avail[n := st.avail[n].(res := rest)], chosen := st.chosen[g := Some(chosen)])
  }

  /** A place in the caller's requests: request p of group g. */
  datatype Ref = Ref(g: nat, p: nat)

  const NoReq := Req(None, None, None, None, false, None, None)

  function RefsIn(reqs: seq<Req>, g: nat, p: nat, host: string): seq<Ref>
    requires p <= |reqs|
    decreases |reqs| - p
  {
    if p == |reqs| then []
    else (if DOF(reqs[p]) == 2 && reqs[p].host == Some(host) then [Ref(g, p)] else []) + RefsIn(reqs, g, p + 1, host)
  }

  /** The requests of host-only groups, from group g on, that wait for a resource
      of this host. */
  function RefsFor(groups: seq<Group>, g: nat, host: string): seq<Ref>
    requires g <= |groups|
    decreases |groups| - g
  {
    if g == |groups| then []
    else
      (if GroupDOF(groups[g]) == 2 then RefsIn(GroupReqs(groups[g]), g, 0, host) else [])
      + RefsFor(groups, g + 1, host)
  }

  function ReadRef(groups: seq<Group>, r: Ref): Req {
    if r.g < |groups| && r.p < |GroupReqs(groups[r.g])| then GroupReqs(groups[r.g])[r.p] else NoReq
  }

  function WriteRef(groups: seq<Group>, r: Ref, q: Req): (gs: seq<Group>)
    ensures |gs| == |groups|
  {
    if r.g < |groups| && groups[r.g].Reqs? && r.p < |groups[r.g].reqs| then
      groups[r.g := Reqs(groups[r.g].reqs[r.p := q])]
    else groups
  }

  function ReadRefs(groups: seq<Group>, refs: seq<Ref>): seq<Req> {
    seq(|refs|, i requires 0 <= i < |refs| => ReadRef(groups, refs[i]))
  }

  function WriteRefs(groups: seq<Group>, refs: seq<Ref>, qs: seq<Req>): (gs: seq<Group>)
    ensures |gs| == |groups|
    decreases |refs|
  {
    if refs == [] || qs == [] then groups else WriteRefs(WriteRef(groups, refs[0], qs[0]), refs[1..], qs[1..])
  }

  // ------------------------------------------------- lists with only indices

  /** Find the first node, from n on, that serves group g. Before a node is taken
      the requests waiting for it are tried on what would remain. That look-ahead
      works on the caller's own requests, so what it matches is written into them
      whether or not the node is taken. */
  function TryIndexed(groups0: seq<Group>, st: PlanState, g: nat, n: nat, uid: nat): (o: Outcome<PlanState>)
    requires Shaped(st) && g < |st.groups| && n <= |st.avail|
    ensures o.Done? ==> Shaped(o.value) && |o.value.groups| == |st.groups|
    decreases |st.avail| - n
  {
    if n == |st.avail| then Raised(UserError)
    else
      var node, reqs := st.avail[n], GroupReqs(st.groups[g]);
      var onNode := OnHosts(FreeOf(reqs), node.name);
      match MatchFixed(onNode, node.res, uid)
      case None => TryIndexed(groups0, st, g, n + 1, uid)
      case Some(rest) =>
        var refs := RefsFor(groups0, 0, node.name);
        if refs == [] then Done(Accept(st, g, n, Fill(reqs, onNode), rest))
        else
          var look := MatchPartly(ReadRefs(st.groups, refs), rest, uid);
          var st' := st.(groups := WriteRefs(st.groups, refs, look.reqs));
          if look.Matched? then Done(Accept(st', g, n, Fill(reqs, onNode), rest))
          else if look.NoMatch? then TryIndexed(groups0, st', g, n + 1, uid)
          else Raised(InternalError)
  }

  function PlaceIndexed(site: Site, groups0: seq<Group>, st: PlanState, todo: seq<nat>, uid: nat): (o: Outcome<PlanState>)
    requires Shaped(st) && InRange(todo, |st.groups|)
    ensures o.Done? ==> Shaped(o.value) && |o.value.groups| == |st.groups|
    decreases |todo|
  {
    if todo == [] then Done(st)
    else
      match TryIndexed(groups0, st.(avail := SortAvail(site, st.avail)), todo[0], 0, uid)
      case Raised(e) => Raised(e)
      case Done(st') => PlaceIndexed(site, groups0, st', todo[1..], uid)
  }

  // --------------------------------------------------- lists with a host

  function NodeIndex(avail: seq<NodeAvail>, name: string): (n: nat)
    ensures n <= |avail|
    ensures n < |avail| ==> avail[n].name == name
  {
    if avail == [] || avail[0].name == name then 0 else 1 + NodeIndex(avail[1..], name)
  }

  function PlaceOnHost(st: PlanState, g: nat, uid: nat): (o: Outcome<PlanState>)
    requires Shaped(st) && g < |st.groups|
    ensures o.Done? ==> Shaped(o.value) && |o.value.groups| == |st.groups|
  {
    var reqs := GroupReqs(st.groups[g]);
    var free := FreeOf(reqs);
    if free == [] then Raised(InternalError)
    else if free[0].host.None? then Raised(UserError)
    else
      var n := NodeIndex(st.avail, free[0].host.value);
      if n == |st.avail| then Raised(UserError)
      else
        var m := MatchPartly(free, SortRes(st.avail[n].res), uid);
        if m.Matched? then
          var done := Fill(reqs, m.reqs);
          Done(Accept(st.(groups := st.groups[g := Reqs(done)]), g, n, done, m.rest))
        else Raised(InternalError)
  }

  function PlaceHosted(st: PlanState, todo: seq<nat>, uid: nat): (o: Outcome<PlanState>)
    requires Shaped(st) && InRange(todo, |st.groups|)
    ensures o.Done? ==> Shaped(o.value) && |o.value.groups| == |st.groups|
    decreases |todo|
  {
    if todo == [] then Done(st)
    else
      match PlaceOnHost(st, todo[0], uid)
      case Raised(e) => Raised(e)
      case Done(st') => PlaceHosted(st', todo[1..], uid)
  }

  // ------------------------------------------- lists and nodes anywhere

  /** Nodes with nothing left are forgotten. */
  function DropEmpty(avail: seq<NodeAvail>): seq<NodeAvail> {
    if avail == [] then [] else (if avail[0].res == [] then [] else [avail[0]]) + DropEmpty(avail[1..])
  }

  function TryAnywhere(st: PlanState, g: nat, n: nat, uid: nat): (o: Outcome<PlanState>)
    requires Shaped(st) && g < |st.groups| && n <= |st.avail|
    ensures o.Done? ==> Shaped(o.value) && |o.value.groups| == |st.groups|
    decreases |st.avail| - n
  {
    if n == |st.avail| then Raised(UserError)
    else
      var node, reqs := st.avail[n], GroupReqs(st.groups[g]);
      var m := MatchPartly(OnHosts(FreeOf(reqs), node.name), node.res, uid);
      if m.Matched? then Done(Accept(st, g, n, Fill(reqs, m.reqs), m.rest))
      else if m.NoMatch? then TryAnywhere(st, g, n + 1, uid)
      else Raised(InternalError)
  }

  function FirstOfType(rs: seq<Res>, q: Req): (i: nat)
    ensures i <= |rs|
    ensures i < |rs| ==> TypeSearchMatch(rs[i].attrs, q)
    ensures forall j | 0 <= j < i :: !TypeSearchMatch(rs[j].attrs, q)
  {
    if rs == [] || TypeSearchMatch(rs[0].attrs, q) then 0 else 1 + FirstOfType(rs[1..], q)
  }

  /** Each wanted resource is found among those not found before. */
  predicate HasWanted(wants: seq<Req>, rs: seq<Res>)
    decreases |wants|
  {
    wants == [] ||
    var i := FirstOfType(rs, wants[0]);
    i < |rs| && HasWanted(wants[1..], rs[..i] + rs[i + 1..])
  }

  /** A node counts as whole if what is free on it weighs what all of it weighs. */
  predicate IsWhole(site: Site, node: NodeAvail) {
    (if node.name in site.whenFree then site.whenFree[node.name] else 0) == TotalWeight(node.res)
  }

  function AsRequests(rs: seq<Res>): seq<Req> {
    if rs == [] then [] else [AsRequest(rs[0])] + AsRequests(rs[1..])
  }

  function TryWholeNode(site: Site, st: PlanState, g: nat, wants: seq<Req>, n: nat): (o: Outcome<PlanState>)
    requires Shaped(st) && g < |st.groups| && n <= |st.avail|
    ensures o.Done? ==> Shaped(o.value) && |o.value.groups| == |st.groups|
    decreases |st.avail| - n
  {
    if n == |st.avail| then Raised(UserError)
    else if IsWhole(site, st.avail[n]) && HasWanted(wants, st.avail[n].res) then
      Done(Accept(st, g, n, AsRequests(st.avail[n].res), []))
    else TryWholeNode(site, st, g, wants, n + 1)
  }

  function PlaceAnywhere(site: Site, st: PlanState, todo: seq<nat>, uid: nat): (o: Outcome<PlanState>)
    requires Shaped(st) && InRange(todo, |st.groups|)
    ensures o.Done? ==> Shaped(o.value) && |o.value.groups| == |st.groups|
    decreases |todo|
  {
    if todo == [] then Done(st)
    else
      var g, st1 := todo[0], st.(avail := SortAvail(site, st.avail));
      match (if st1.groups[g].Node? then TryWholeNode(site, st1, g, st1.groups[g].wants, 0) else TryAnywhere(st1, g, 0, uid))
      case Raised(e) => Raised(e)
      case Done(st') => PlaceAnywhere(site, st', todo[1..], uid)
  }

  // --------------------------------------------------------------- the plan

  function StartChosen(groups: seq<Group>): seq<Option<seq<Req>>> {
    seq(|groups|, i requires 0 <= i < |groups| => if GroupDOF(groups[i]) == 0 then Some(GroupReqs(groups[i])) else None)
  }

  function Start(t: Table, site: Site, groups: seq<Group>, uid: nat): (o: Outcome<PlanState>)
    ensures o.Done? ==> Shaped(o.value) && |o.value.groups| == |groups|
  {
    match CommitAll(FreePool(t, site), GrantsOf(FixedByDOF(groups)), uid)
    case None => Raised(CommitFailed)
    case Some(pool) =>
      Done(PlanState(groups, AvailOn(site.order, pool, Hosts(site.order, site)), StartChosen(groups)))
  }

  lemma {:induction false} WithDOFBounds(groups: seq<Group>, d: nat, n: nat)
    requires n <= |groups|
    ensures var todo := WithDOF(groups, d, n);
            && InRange(todo, |groups|)
            && (forall i | 0 <= i < |todo| :: n <= todo[i] && GroupDOF(groups[todo[i]]) == d)
            && (forall i, j | 0 <= i < j < |todo| :: todo[i] < todo[j])
            && (forall g | n <= g < |groups| && GroupDOF(groups[g]) == d :: g in todo)
    decreases |groups| - n
  {
    if n < |groups| {
      WithDOFBounds(groups, d, n + 1);
      var todo, rest := WithDOF(groups, d, n), WithDOF(groups, d, n + 1);
      if GroupDOF(groups[n]) == d {
        assert todo == [n] + rest;
        assert forall i | 1 <= i < |todo| :: todo[i] == rest[i - 1];
      }
    }
  }

  /** The three placement steps after the fixed requests have been taken. */
  function Place(site: Site, groups: seq<Group>, st: PlanState, uid: nat): (o: Outcome<PlanState>)
    requires Shaped(st) && |st.groups| == |groups|
    ensures o.Done? ==> Shaped(o.value) && |o.value.groups| == |groups|
  {
    WithDOFBounds(groups, 1, 0);
    WithDOFBounds(groups, 2, 0);
    WithDOFBounds(groups, 3, 0);
    match PlaceIndexed(site, groups, st, WithDOF(groups, 1, 0), uid)
    case Raised(e) => Raised(e)
    case Done(st1) =>
      match PlaceHosted(st1, WithDOF(groups, 2, 0), uid)
      case Raised(e) => Raised(e)
      case Done(st2) =>
        PlaceAnywhere(site, st2.(avail := DropEmpty(st2.avail)), WithDOF(groups, 3, 0), uid)
  }

  /** A plan: what has been chosen for each group. */
  function Plan(t: Table, site: Site, groups: seq<Group>, uid: nat): (o: Outcome<seq<seq<Req>>>)
  {
    match Validate(t, site, groups)
    case Some(e) => Raised(e)
    case None =>
      var pasted := PasteAll(groups);
      match Start(t, site, pasted, uid)
      case Raised(e) => Raised(e)
      case Done(st) =>
        match Place(site, pasted, st, uid)
        case Raised(e) => Raised(e)
        case Done(st') => Done(Chosen(st'.chosen))
  }

  function Chosen(chosen: seq<Option<seq<Req>>>): seq<seq<Req>> {
    seq(|chosen|, i requires 0 <= i < |chosen| => if chosen[i].Some? then chosen[i].value else [])
  }

  /** Index-only lists come with a host for which two requests wait that are in one
      list, the first of the lists that wait for the host. For these the look-ahead
      can resolve one and leave the other, which spoils the plan. */
  ghost predicate Spoilable(groups: seq<Group>) {
    (exists g <- groups :: GroupDOF(g) == 1)
    && exists host, j | 1 <= j < |RefsFor(groups, 0, host)| :: RefsFor(groups, 0, host)[j].g == RefsFor(groups, 0, host)[0].g
  }
}
