/** The allocator's objects: resources that change owners in place, allocations, and
    the metascheduler that keeps the table of resources. Each method is proved against
    the functions of the other modules, and what they establish about single requests
    and whole runs is carried over to the objects. */
module MetaschedulerObjects {
  import opened Resources
  import opened Ledger
  import opened Matchers
  import opened Planner
  import opened PlanTheorem
  import opened PlanSound
  import opened PlacementSteps
  import opened Requests
  import opened Commit
  import opened Allocating
  import UsableNodes

  // -------------------------------------------------------------- resources

  lemma {:induction false} RemoveFirstAt(s: seq<nat>, x: nat, i: nat)
    requires i < |s| && s[i] == x && forall j | 0 <= j < i :: s[j] != x
    ensures x in s && RemoveFirst(s, x) == s[..i] + s[i + 1..]
  {
    assert s == [s[0]] + s[1..];
    if i > 0 {
      RemoveFirstAt(s[1..], x, i - 1);
      assert s[..i] == [s[0]] + s[1..][..i - 1] && s[i + 1..] == s[1..][i..];
    }
  }

  /** Remove the first occurrence of x. */
  method RemoveOne(s: seq<nat>, x: nat) returns (ok: bool, rest: seq<nat>)
    ensures ok <==> x in s
    ensures rest == if ok then RemoveFirst(s, x) else s
  {
    var i := 0;
    while i < |s| && s[i] != x
      invariant 0 <= i <= |s| && forall j | 0 <= j < i :: s[j] != x
    {
      i := i + 1;
    }
    if i == |s| { return false, s; }
    RemoveFirstAt(s, x, i);
    ok, rest := true, s[..i] + s[i + 1..];
  }

  class VizResource {
    const attrs: Attrs
    var owners: seq<nat>
    var shared: bool
    var serverOwners: seq<nat>

    constructor (attrs: Attrs)
      ensures State() == Res(attrs, [], false, [])
    {
      this.attrs := attrs;
      owners, shared, serverOwners := [], false, [];
    }

    /** A copy of the resource as it is now. */
    function State(): Res
      reads this
    {
      Res(attrs, owners, shared, serverOwners)
    }

    /** Serve a request: the user becomes an owner, of a GPU's X server as well, and
        the resource becomes shared if that was asked for. */
    method DoAllocate(q: Req, uid: nat) returns (ok: bool)
      modifies this
      ensures ok == CanAllocate(old(State()), q)
      ensures State() == if ok then Grow(old(State()), q, uid) else old(State())
    {
      if !CanAllocate(State(), q) { return false; }
      owners := owners + [uid];
      if q.shared {
        if attrs.limit > 1 { shared := true; }
      }
      if attrs.key.cls == GPU { serverOwners := serverOwners + [uid]; }
      ok := true;
    }

    /** Give up one ownership. A GPU gives up that of its X server first. */
    method Deallocate(uid: nat) returns (ok: bool)
      modifies this
      ensures ok == CanShrink(old(State()), uid)
      ensures ok ==> State() == Shrink(old(State()), uid)
      ensures !ok && Safe(old(State())) ==> State() == old(State())
    {
      if attrs.key.cls == GPU {
        ok, serverOwners := RemoveOne(serverOwners, uid);
        if !ok { return; }
      }
      ok, owners := RemoveOne(owners, uid);
      if !ok { return; }
      if |owners| == 0 { shared := false; }
    }
  }

  // ------------------------------------------------------------- allocations

  class Allocation {
    var resources: Option<seq<Item<Res>>>
    var user: Option<nat>

    constructor (resources: seq<Item<Res>>, user: nat)
      ensures Holding() == Held(user, HeldKeys(resources))
      ensures this.resources == Some(resources) && this.user == Some(user)
    {
      this.resources, this.user := Some(resources), Some(user);
    }

    /** What the allocation holds. */
    function Holding(): Holding
      reads this
    {
      if resources.Some? && user.Some? then Held(user.value, HeldKeys(resources.value)) else Released
    }

    /** Forget everything; a second time changes nothing. */
    method Deallocate()
      modifies this
      ensures Holding() == Released
      ensures old(resources).Some? ==> resources.None? && user.None?
    {
      if resources.None? { return; }
      resources, user := None, None;
    }
  }

  /** What an allocation call answers. */
  ghost function AnswerOf(o: Outcome<Allocation>): Outcome<seq<Item<Res>>>
    reads if o.Done? then {o.value} else {}
  {
    match o
    case Raised(e) => Raised(e)
    case Done(a) => if a.resources.Some? then Done(a.resources.value) else Raised(InternalError)
  }

  /** A fair request keeps every owner accounted for, whatever becomes of it. */
  lemma FairStaysConserved(init: Table, t: Table, live: seq<Holding>, site: Site, items: seq<Item<Req>>, uid: nat,
                           schedulers: seq<Scheduler>, answers: seq<bool>)
    requires |answers| == |schedulers| && NoDuplicates(site.order) && Fair(t, items, schedulers)
    requires Conserved(init, State(t, live))
    ensures var r := Perform(t, site, items, uid, schedulers, answers);
            && (r.0.Raised? ==> r.1 == t && Conserved(init, State(r.1, live)))
            && (r.0.Done? ==> Conserved(init, State(r.1, live + [Held(uid, HeldKeys(r.0.value))])))
  {
    FairRequestIsAtomic(t, site, items, uid, schedulers, answers);
    var r := Perform(t, site, items, uid, schedulers, answers);
    if r.0.Done? {
      PerformIsTake(t, site, items, uid, schedulers, answers, live);
      NextConserves(init, State(t, live), Take(uid, GrantsOf(Concat(Plan(t, site, ExpandAll(items), uid).value))));
    }
  }

  // ---------------------------------------------------------------- freeing

  lemma {:induction false} KeysInAppend(a: seq<Res>, b: seq<Res>)
    ensures KeysIn(a + b) == KeysIn(a) + KeysIn(b)
  {
    if a == [] {
      assert a + b == b;
    } else {
      assert (a + b)[0] == a[0] && (a + b)[1..] == a[1..] + b;
      KeysInAppend(a[1..], b);
    }
  }

  // ------------------------------------------------------------- committing

  lemma GrowSafeIfAllowed(r: Res, q: Req, uid: nat)
    requires Safe(r)
    ensures CanAllocate(r, q) ==> Safe(Grow(r, q, uid))
  {
  }

  lemma ShrinkSafeIfAllowed(r: Res, uid: nat)
    requires Safe(r)
    ensures CanShrink(r, uid) ==> Safe(Shrink(r, uid)) && Shrink(r, uid).attrs == r.attrs
  {
    if CanShrink(r, uid) { ShrinkSafe(r, uid); }
  }

  /** What one round of the commit loop does. */
  lemma CommitReqsStep(t: Table, qs: seq<Req>, uid: nat, launched: set<string>, out: seq<Res>)
    requires qs != [] && Keyed(qs[0]) && KeyOf(qs[0]) in t
    ensures var k := KeyOf(qs[0]);
            var t' := t[k := Grow(t[k], qs[0], uid)];
            Prefix(out, CommitReqs(t, qs, uid, launched)) ==
              if !CanAllocate(t[k], qs[0]) then Step(false, t, out)
              else if qs[0].cls == Some(GPU) && k.host !in launched then Step(false, t', out)
              else Prefix(out + [t'[k]], CommitReqs(t', qs[1..], uid, launched))
  {
    var k := KeyOf(qs[0]);
    var t' := t[k := Grow(t[k], qs[0], uid)];
    var s := CommitReqs(t', qs[1..], uid, launched);
    assert out + ([t'[k]] + s.out) == (out + [t'[k]]) + s.out;
    assert out + [] == out;
  }

  /** Resources of one host: that of the node, or if it has no name that of the first. */
  ghost predicate HostsFit(host: Option<string>, rs: seq<Res>) {
    forall i | 0 <= i < |rs| :: Some(rs[i].Key().host) == if host.Some? then host else Some(rs[0].Key().host)
  }

  lemma CommitListsStep(t: Table, ls: seq<seq<Req>>, uid: nat, launched: set<string>, out: seq<seq<Res>>)
    requires ls != []
    ensures var s := CommitReqs(t, ls[0], uid, launched);
            Prefix(out, CommitLists(t, ls, uid, launched)) ==
              if !s.ok then Step(false, s.table, out) else Prefix(out + [s.out], CommitLists(s.table, ls[1..], uid, launched))
  {
    var s := CommitReqs(t, ls[0], uid, launched);
    var r := CommitLists(s.table, ls[1..], uid, launched);
    assert out + ([s.out] + r.out) == (out + [s.out]) + r.out;
    assert out + [] == out;
  }

  /** The places of the items in the expanded request. */
  ghost predicate PlacesOf(items: seq<Item<Req>>, places: seq<Place>) {
    |places| == |items| && forall i | 0 <= i < |items| :: places[i].First() == StartOf(items, i) && places[i].Last() == StartOf(items, i + 1)
  }

  /** The lists of item n on start at start. */
  ghost predicate AtItem(items: seq<Item<Req>>, plan: seq<seq<Req>>, n: nat, start: nat)
    requires n <= |items|
  {
    start == StartOf(items, n) <= |plan| && AllAnswerable(items[n..], plan[start..])
  }

  lemma AtNextItem(items: seq<Item<Req>>, places: seq<Place>, plan: seq<seq<Req>>, n: nat, start: nat)
    requires PlacesOf(items, places) && n < |items| && AtItem(items, plan, n, start)
    ensures var w := |Lists(items[n])|;
            && AtItem(items, plan, n + 1, start + w)
            && places[n].First() == start && places[n].Last() == start + w
            && plan[start..start + w] == plan[start..][..w] && plan[start + w..] == plan[start..][w..]
            && Answerable(items[n], plan[start..start + w])
            && items[n..][0] == items[n] && items[n..][1..] == items[n + 1..]
  {
    StartOfNext(items, n);
    var w := |Lists(items[n])|;
    assert items[n..][0] == items[n] && items[n..][1..] == items[n + 1..];
    assert plan[start..][..w] == plan[start..start + w] && plan[start..][w..] == plan[start + w..];
  }

  /** The commit has got to item n, whose lists start at start: with what is out so far,
      the rest leads to all. */
  ghost predicate CommittedTo(t: Table, items: seq<Item<Req>>, plan: seq<seq<Req>>, n: nat, start: nat, uid: nat, launched: set<string>,
                              out: seq<Item<Res>>, all: Step<Item<Res>>)
    requires n <= |items|
  {
    AtItem(items, plan, n, start) && all == Prefix(out, CommitItems(t, items[n..], plan[start..], uid, launched))
  }

  /** What one round of the commit loop over items does. */
  lemma ItemsNext(t: Table, items: seq<Item<Req>>, places: seq<Place>, plan: seq<seq<Req>>, n: nat, start: nat, uid: nat, launched: set<string>,
                  out: seq<Item<Res>>, all: Step<Item<Res>>)
    requires PlacesOf(items, places) && n < |items| && CommittedTo(t, items, plan, n, start, uid, launched, out, all)
    ensures var w := |Lists(items[n])|;
            && places[n].First() == start && places[n].Last() == start + w <= |plan|
            && Answerable(items[n], plan[start..start + w])
            && var s := CommitItem(t, items[n], plan[start..start + w], uid, launched);
               if !s.ok then all == Step(false, s.table, out)
               else CommittedTo(s.table, items, plan, n + 1, start + w, uid, launched, out + s.out, all)
  {
    AtNextItem(items, places, plan, n, start);
    CommitItemsStep(t, items[n..], plan[start..], uid, launched, out);
  }

  lemma ItemsStart(t: Table, items: seq<Item<Req>>, plan: seq<seq<Req>>, uid: nat, launched: set<string>)
    requires AllAnswerable(items, plan)
    ensures CommittedTo(t, items, plan, 0, 0, uid, launched, [], CommitItems(t, items, plan, uid, launched))
  {
    assert items[0..] == items && plan[0..] == plan && items[..0] == [];
    var all := CommitItems(t, items, plan, uid, launched);
    assert [] + all.out == all.out;
  }

  lemma ItemsDone(t: Table, items: seq<Item<Req>>, plan: seq<seq<Req>>, start: nat, uid: nat, launched: set<string>,
                  out: seq<Item<Res>>, all: Step<Item<Res>>)
    requires CommittedTo(t, items, plan, |items|, start, uid, launched, out, all)
    ensures all == Step(true, t, out)
  {
    assert items[|items|..] == [] && out + [] == out;
  }

  lemma CommitItemsStep(t: Table, items: seq<Item<Req>>, plan: seq<seq<Req>>, uid: nat, launched: set<string>, out: seq<Item<Res>>)
    requires items != [] && AllAnswerable(items, plan)
    ensures var w := |Lists(items[0])|;
            var s := CommitItem(t, items[0], plan[..w], uid, launched);
            Prefix(out, CommitItems(t, items, plan, uid, launched)) ==
              if !s.ok then Step(false, s.table, out) else Prefix(out + s.out, CommitItems(s.table, items[1..], plan[w..], uid, launched))
  {
    var w := |Lists(items[0])|;
    var s := CommitItem(t, items[0], plan[..w], uid, launched);
    var r := CommitItems(s.table, items[1..], plan[w..], uid, launched);
    assert out + (s.out + r.out) == (out + s.out) + r.out;
    assert out + [] == out;
  }

  lemma {:induction false} CopiesAreOfPicks(t: Table, qs: seq<Req>, uid: nat, launched: set<string>)
    requires CommitReqs(t, qs, uid, launched).ok && forall k <- t :: t[k].Key() == k
    ensures var out := CommitReqs(t, qs, uid, launched).out;
            forall i | 0 <= i < |qs| :: qs[i].host == Some(out[i].Key().host)
    decreases |qs|
  {
    if qs != [] {
      var k := KeyOf(qs[0]);
      var t' := t[k := Grow(t[k], qs[0], uid)];
      CopiesAreOfPicks(t', qs[1..], uid, launched);
      var out := CommitReqs(t, qs, uid, launched).out;
      assert out[1..] == CommitReqs(t', qs[1..], uid, launched).out;
      assert forall i | 1 <= i < |qs| :: qs[i] == qs[1..][i - 1] && out[i] == out[1..][i - 1];
    }
  }

  /** Put resources into a node: they have to be on its host, which for a node without
      a name is that of the first one. */
  method AddToNode(host: Option<string>, rs: seq<Res>) returns (ok: bool, name: Option<string>)
    ensures ok <==> HostsFit(host, rs)
    ensures ok ==> name == NodeName(host, rs)
  {
    name := host;
    for n := 0 to |rs|
      invariant name == if n == 0 then host else NodeName(host, rs)
      invariant forall i | 0 <= i < n :: Some(rs[i].Key().host) == if host.Some? then host else Some(rs[0].Key().host)
    {
      if name.None? {
        name := Some(rs[n].Key().host);
      } else if rs[n].Key().host != name.value {
        return false, name;
      }
    }
    ok := true;
  }

  /** Give the resources allocated for an item its shape. */
  method ShapeAnswer(item: Item<Req>, lists: seq<seq<Res>>) returns (ok: bool, out: seq<Item<Res>>)
    requires Answerable(item, lists)
    ensures ok == (item.WholeNode? ==> HostsFit(item.host, lists[0]))
    ensures ok ==> out == [Regroup(item, lists)]
  {
    ok := true;
    match item {
      case Single(_) => out := [Single(lists[0][0])];
      case Several(_) => out := [Several(lists[0])];
      case Aggregate(_) => out := [Aggregate(lists)];
      case WholeNode(host, _) =>
        var name;
        ok, name := AddToNode(host, lists[0]);
        out := [WholeNode(name, lists[0])];
    }
  }

  lemma PlacedInNode(host: Option<string>, wants: seq<Req>, t: Table, picks: seq<seq<Req>>, uid: nat, launched: set<string>)
    requires |picks| == 1 && CommitLists(t, picks, uid, launched).ok && forall k <- t :: t[k].Key() == k
    ensures var rs := CommitLists(t, picks, uid, launched).out[0];
            Misplaced(WholeNode(host, wants), picks) <==> !HostsFit(host, rs)
  {
    var rs, qs := CommitLists(t, picks, uid, launched).out[0], picks[0];
    CopiesAreOfPicks(t, qs, uid, launched);
    if Misplaced(WholeNode(host, wants), picks) {
      var q :| q in qs && q.host != if host.Some? then host else qs[0].host;
      var i :| 0 <= i < |qs| && qs[i] == q;
      assert Some(rs[i].Key().host) == q.host;
    } else {
      forall i | 0 <= i < |rs|
        ensures Some(rs[i].Key().host) == if host.Some? then host else Some(rs[0].Key().host)
      {
        assert qs[i] in qs;
      }
    }
  }

  /** The nodes of the GPUs among some picks, so far. */
  lemma GpuHostsAppend(qs: seq<Req>, q: Req)
    ensures GpuHosts(qs + [q]) == GpuHosts(qs) + if Keyed(q) && NeedsLauncher(q) then {q.host.value} else {}
  {
    var all := qs + [q];
    assert forall p :: p in all <==> p in qs || p == q;
    forall h
      ensures h in GpuHosts(all) <==> h in GpuHosts(qs) || (Keyed(q) && NeedsLauncher(q) && h == q.host.value)
    {
      if h in GpuHosts(all) { var p :| p in all && Keyed(p) && NeedsLauncher(p) && p.host.value == h; }
      if h in GpuHosts(qs) { var p :| p in qs && Keyed(p) && NeedsLauncher(p) && p.host.value == h; assert p in all; }
      assert q in all;
    }
  }

  lemma LaunchedNext(schedulers: seq<Scheduler>, n: nat, hosts: set<string>)
    requires n < |schedulers|
    ensures Launched(schedulers[..n + 1], hosts) == Launched(schedulers[..n], hosts) + set h | h in hosts && h in schedulers[n].nodes
  {
    assert schedulers[..n + 1] == schedulers[..n] + [schedulers[n]];
    forall h
      ensures Manages(schedulers[..n + 1], h) <==> Manages(schedulers[..n], h) || h in schedulers[n].nodes
    {
      if Manages(schedulers[..n], h) {
        var s :| s in schedulers[..n] && h in s.nodes;
        assert s in schedulers[..n + 1];
      }
      assert schedulers[n] in schedulers[..n + 1];
    }
  }

  lemma AskedIfMatching(s: Scheduler, hosts: set<string>)
    ensures Asked(s, hosts) <==> (set h | h in hosts && h in s.nodes) != {}
  {
    var matching := set h | h in hosts && h in s.nodes;
    assert forall h :: h in matching <==> h in hosts && h in s.nodes;
  }

  lemma {:induction false} InConcat<T>(xs: seq<seq<T>>, ys: seq<T>, y: T)
    requires ys in xs && y in ys
    ensures y in Concat(xs)
  {
    if ys != xs[0] { InConcat(xs[1..], ys, y); }
  }

  /** Freeing a live allocation finds all owners and keeps the rest accounted for. */
  lemma FreeingConserves(init: Table, t: Table, live: seq<Holding>, i: nat)
    requires Conserved(init, State(t, live)) && i < |live| && live[i].Held?
    ensures var f := FreeKeys(t, live[i].keys, live[i].uid);
            f.ok && FreeAll(t, live[i].keys, live[i].uid) == Some(f.table) && Conserved(init, State(f.table, live[i := Released]))
  {
    GiveConserves(init, State(t, live), i);
    FreeKeysIs(t, live[i].keys, live[i].uid);
  }

  // ----------------------------------------------------------- metascheduler

  lemma NothingAllocated(t: Table)
    requires SafeTable(t)
    ensures Conserved(t, State(t, []))
  {
  }

  /** A snapshot of all resources. */
  ghost function Snapshot(table: map<Key, VizResource>): Table
    reads table.Values
  {
    map k | k in table :: table[k].State()
  }

  /** The table has each resource under its key, and keys lists the keys. */
  ghost predicate Listing(table: map<Key, VizResource>, keys: seq<Key>) {
    (forall k <- table :: table[k].attrs.key == k) && (forall k :: k in table <==> k in keys) && NoDuplicates(keys)
  }

  /** The table is in order, sharing is safe, and it is the hardware of init. */
  ghost predicate InOrder(table: map<Key, VizResource>, keys: seq<Key>, init: Table)
    reads table.Values
  {
    Listing(table, keys) && SafeTable(Snapshot(table)) && SameHardware(init, Snapshot(table))
  }

  /** A table in which only the resource at one key changed, and that safely, is still
      in order, and is the one before, updated. */
  lemma OneChanged(table: map<Key, VizResource>, keys: seq<Key>, init: Table, k: Key, t: Table)
    requires Listing(table, keys) && k in table && t.Keys == table.Keys && SafeTable(t) && SameHardware(init, t)
    requires forall j <- table | j != k :: table[j].State() == t[j]
    requires Safe(table[k].State()) && table[k].attrs == t[k].attrs
    ensures InOrder(table, keys, init) && Snapshot(table) == t[k := table[k].State()]
  {
    SnapshotChanged(table, k, t);
    UpdateSafe(t, init, k, table[k].State());
  }

  lemma SnapshotChanged(table: map<Key, VizResource>, k: Key, t: Table)
    requires k in table && t.Keys == table.Keys
    requires forall j <- table | j != k :: table[j].State() == t[j]
    ensures Snapshot(table) == t[k := table[k].State()]
  {
  }

  lemma UpdateSafe(t: Table, init: Table, k: Key, r: Res)
    requires SafeTable(t) && SameHardware(init, t) && k in t && Safe(r) && r.attrs == t[k].attrs
    ensures SafeTable(t[k := r]) && SameHardware(init, t[k := r])
  {
  }

  class Metascheduler {
    var allocations: seq<Allocation>
    const order: seq<Key>
    const infoTable: map<Key, VizResource>
    const nodes: map<string, NodeInfo>
    const whenFree: map<string, int>
    const schedulers: seq<Scheduler>
    ghost const initial: Table

    ghost function Current(): Table
      reads infoTable.Values
    {
      Snapshot(infoTable)
    }

    ghost function Live(): seq<Holding>
      reads this, allocations
    {
      seq(|allocations|, i requires 0 <= i < |allocations| reads this, allocations => allocations[i].Holding())
    }

    /** The table is in order and sharing is safe. This holds whatever is asked. */
    ghost predicate Wired()
      reads infoTable.Values
    {
      InOrder(infoTable, order, initial)
    }

    /** The allocations are different objects; each has a user while it has resources. */
    ghost predicate Listed()
      reads this, allocations
    {
      && (forall i, j | 0 <= i < j < |allocations| :: allocations[i] != allocations[j])
      && (forall a <- allocations :: a.resources.Some? <==> a.user.Some?)
    }

    /** Every owner in the table is there for a live allocation. */
    ghost predicate Accounted()
      reads this, allocations, infoTable.Values
    {
      Listed() && Conserved(initial, State(Current(), Live()))
    }

    /** Nothing is allocated at first. */
    constructor (table: map<Key, VizResource>, keys: seq<Key>, infos: map<string, NodeInfo>, weights: map<string, int>,
                 schedulers: seq<Scheduler>, ghost init: Table)
      requires Listing(table, keys) && SafeTable(init) && init.Keys == table.Keys
      requires forall k <- table :: table[k].State() == init[k]
      ensures Wired() && Accounted() && allocations == [] && this.schedulers == schedulers
      ensures infoTable == table && order == keys && nodes == infos && whenFree == weights && initial == init
    {
      allocations, order, infoTable, nodes, whenFree := [], keys, table, infos, weights;
      this.schedulers := schedulers;
      initial := init;
      new;
      assert Current() == init;
      NothingAllocated(init);
      assert Live() == [];
    }

    // -------------------------------------------------------- committing

    /** The requests name resources of the table. */
    ghost predicate Known(qs: seq<Req>) { forall q <- qs :: Keyed(q) && KeyOf(q) in infoTable }

    ghost predicate KnownAll(ls: seq<seq<Req>>) { forall qs <- ls :: Known(qs) }

    lemma KnownPart(ls: seq<seq<Req>>, from: nat, to: nat)
      requires from <= to <= |ls| && KnownAll(ls)
      ensures KnownAll(ls[from..to])
    {
      assert forall qs <- ls[from..to] :: qs in ls;
    }

    /** Let the user have the resource a request names, and copy it as it is then. */
    method GrantOne(k: Key, q: Req, uid: nat) returns (ok: bool, copy: Res)
      requires Wired() && k in infoTable
      modifies infoTable.Values
      ensures Wired()
      ensures var t := old(Current());
              && ok == CanAllocate(t[k], q)
              && Current() == (if ok then t[k := Grow(t[k], q, uid)] else t)
              && copy == Current()[k]
    {
      var r := infoTable[k];
      ghost var t := Current();
      GrowSafeIfAllowed(t[k], q, uid);
      ok := r.DoAllocate(q, uid);
      copy := r.State();
      assert copy == if ok then Grow(t[k], q, uid) else t[k];
      OneChanged(infoTable, order, initial, k, t);
    }

    /** Commit one list of picks; launchers has the nodes with a launcher. */
    method CommitList(qs: seq<Req>, uid: nat, launchers: map<string, nat>) returns (ok: bool, out: seq<Res>)
      requires Wired() && Known(qs)
      modifies infoTable.Values
      ensures Wired()
      ensures var s := CommitReqs(old(Current()), qs, uid, launchers.Keys);
              ok == s.ok && Current() == s.table && (ok ==> out == s.out)
    {
      out := [];
      for n := 0 to |qs|
        invariant Wired()
        invariant CommitReqs(old(Current()), qs, uid, launchers.Keys) == Prefix(out, CommitReqs(Current(), qs[n..], uid, launchers.Keys))
      {
        var q := qs[n];
        assert q in qs && qs[n..][0] == q && qs[n..][1..] == qs[n + 1..];
        CommitReqsStep(Current(), qs[n..], uid, launchers.Keys, out);
        var done, copy := GrantOne(KeyOf(q), q, uid);
        if !done { return false, out; }
        if q.cls == Some(GPU) && q.host.value !in launchers { return false, out; }
        out := out + [copy];
      }
      ok := true;
    }

    method CommitSubLists(ls: seq<seq<Req>>, uid: nat, launchers: map<string, nat>) returns (ok: bool, out: seq<seq<Res>>)
      requires Wired() && KnownAll(ls)
      modifies infoTable.Values
      ensures Wired()
      ensures var s := CommitLists(old(Current()), ls, uid, launchers.Keys);
              ok == s.ok && Current() == s.table && (ok ==> out == s.out)
    {
      out := [];
      for n := 0 to |ls|
        invariant Wired()
        invariant CommitLists(old(Current()), ls, uid, launchers.Keys) == Prefix(out, CommitLists(Current(), ls[n..], uid, launchers.Keys))
      {
        assert ls[n] in ls && ls[n..][0] == ls[n] && ls[n..][1..] == ls[n + 1..];
        CommitListsStep(Current(), ls[n..], uid, launchers.Keys, out);
        var done, copies := CommitList(ls[n], uid, launchers);
        if !done { return false, out; }
        out := out + [copies];
      }
      ok := true;
    }

    /** Commit the lists of one item and give the copies its shape. */
    method CommitOne(item: Item<Req>, picks: seq<seq<Req>>, uid: nat, launchers: map<string, nat>) returns (ok: bool, out: seq<Item<Res>>)
      requires Wired() && Answerable(item, picks) && KnownAll(picks)
      modifies infoTable.Values
      ensures Wired()
      ensures var s := CommitItem(old(Current()), item, picks, uid, launchers.Keys);
              ok == s.ok && Current() == s.table && (ok ==> out == s.out)
    {
      ghost var t := Current();
      var lists;
      ok, lists := CommitSubLists(picks, uid, launchers);
      out := [];
      if !ok { return; }
      if item.WholeNode? { PlacedInNode(item.host, item.xs, t, picks, uid, launchers.Keys); }
      ok, out := ShapeAnswer(item, lists);
    }

    /** Commit an item from its stretch of the plan. */
    method CommitPart(item: Item<Req>, plan: seq<seq<Req>>, from: nat, to: nat, uid: nat, launchers: map<string, nat>)
      returns (ok: bool, out: seq<Item<Res>>)
      requires Wired() && from <= to <= |plan| && Answerable(item, plan[from..to]) && KnownAll(plan)
      modifies infoTable.Values
      ensures Wired()
      ensures var s := CommitItem(old(Current()), item, plan[from..to], uid, launchers.Keys);
              ok == s.ok && Current() == s.table && (ok ==> out == s.out)
    {
      KnownPart(plan, from, to);
      ok, out := CommitOne(item, plan[from..to], uid, launchers);
    }

    /** One round of the commit loop. */
    method CommitNext(items: seq<Item<Req>>, places: seq<Place>, plan: seq<seq<Req>>, n: nat, ghost start: nat, uid: nat,
                      launchers: map<string, nat>, out0: seq<Item<Res>>, ghost all: Step<Item<Res>>)
      returns (ok: bool, out: seq<Item<Res>>, ghost next: nat)
      requires Wired() && KnownAll(plan) && PlacesOf(items, places) && n < |items|
      requires CommittedTo(Current(), items, plan, n, start, uid, launchers.Keys, out0, all)
      modifies infoTable.Values
      ensures Wired()
      ensures if ok then CommittedTo(Current(), items, plan, n + 1, next, uid, launchers.Keys, out, all) else !all.ok && Current() == all.table
    {
      ItemsNext(Current(), items, places, plan, n, start, uid, launchers.Keys, out0, all);
      var done, answer := CommitPart(items[n], plan, places[n].First(), places[n].Last(), uid, launchers);
      ok, out, next := done, out0 + answer, start + |Lists(items[n])|;
    }

    /** Commit a plan item by item, in request order. */
    method CommitRequest(items: seq<Item<Req>>, places: seq<Place>, plan: seq<seq<Req>>, uid: nat, launchers: map<string, nat>)
      returns (ok: bool, out: seq<Item<Res>>)
      requires Wired() && AllAnswerable(items, plan) && KnownAll(plan)
      requires PlacesOf(items, places)
      modifies infoTable.Values
      ensures Wired()
      ensures var s := CommitItems(old(Current()), items, plan, uid, launchers.Keys);
              ok == s.ok && Current() == s.table && (ok ==> out == s.out)
    {
      out := [];
      ghost var start: nat := 0;
      ghost var all := CommitItems(Current(), items, plan, uid, launchers.Keys);
      ItemsStart(Current(), items, plan, uid, launchers.Keys);
      for n := 0 to |items|
        invariant Wired() && CommittedTo(Current(), items, plan, n, start, uid, launchers.Keys, out, all)
      {
        ok, out, start := CommitNext(items, places, plan, n, start, uid, launchers, out, all);
        if !ok { return; }
      }
      ItemsDone(Current(), items, plan, start, uid, launchers.Keys, out, all);
      ok := true;
    }

    // -------------------------------------------------------- allocating

    /** Look at each pick once more, and note the nodes schedulers are needed for. */
    method MarkPicks(picks: seq<Req>) returns (ok: bool, hosts: set<string>)
      requires Wired()
      ensures ok == Marked(Current(), picks)
      ensures ok ==> hosts == GpuHosts(picks)
    {
      hosts := {};
      for n := 0 to |picks|
        invariant Marked(Current(), picks[..n]) && hosts == GpuHosts(picks[..n])
      {
        var q := picks[n];
        assert q in picks && picks[..n + 1] == picks[..n] + [q];
        GpuHostsAppend(picks[..n], q);
        if !Keyed(q) || KeyOf(q) !in infoTable || !IsFree(infoTable[KeyOf(q)].State()) { return false, hosts; }
        if q.cls == Some(GPU) { hosts := hosts + {q.host.value}; }
      }
      assert picks[..|picks|] == picks;
      ok := true;
    }

    /** Ask each scheduler for those of the nodes it manages. */
    method AskSchedulers(hosts: set<string>, answers: seq<bool>) returns (ok: bool, launchers: map<string, nat>)
      requires |answers| == |schedulers|
      ensures ok == !Refused(schedulers, answers, hosts)
      ensures ok ==> launchers.Keys == Launched(schedulers, hosts)
    {
      launchers := map[];
      for n := 0 to |schedulers|
        invariant forall i | 0 <= i < n :: answers[i] || !Asked(schedulers[i], hosts)
        invariant launchers.Keys == Launched(schedulers[..n], hosts)
      {
        var matching := set h | h in hosts && h in schedulers[n].nodes;
        assert schedulers[..n + 1] == schedulers[..n] + [schedulers[n]];
        LaunchedNext(schedulers, n, hosts);
        AskedIfMatching(schedulers[n], hosts);
        if matching != {} && !answers[n] { return false, launchers; }
        launchers := map h | h in launchers.Keys + matching :: if h in matching then n else launchers[h];
      }
      assert schedulers[..|schedulers|] == schedulers;
      ok := true;
    }

    /** Commit a plan that schedulers may still refuse. */
    method CommitPlan(items: seq<Item<Req>>, places: seq<Place>, plan: seq<seq<Req>>, uid: nat, answers: seq<bool>)
      returns (o: Outcome<seq<Item<Res>>>)
      requires Wired() && |answers| == |schedulers| && AllAnswerable(items, plan)
      requires PlacesOf(items, places)
      modifies infoTable.Values
      ensures Wired()
      ensures (o, Current()) == PerformPlan(old(Current()), items, plan, uid, schedulers, answers)
    {
      var marked, hosts := MarkPicks(Concat(plan));
      if !marked { return Raised(InternalError); }
      var granted, launchers := AskSchedulers(hosts, answers);
      if !granted { return Raised(SchedulerFailed); }
      forall qs <- plan
        ensures Known(qs)
      {
        forall q <- qs ensures Keyed(q) && KeyOf(q) in infoTable { InConcat(plan, qs, q); }
      }
      var ok, out := CommitRequest(items, places, plan, uid, launchers);
      o := if ok then Done(out) else Raised(CommitFailed);
    }

    /** Plan on copies of the resources. */
    method PlanOnCopies(groups: seq<Group>, uid: nat, site: Site) returns (planned: Outcome<seq<seq<Req>>>)
      requires Wired() && site.order == order
      ensures planned == Plan(Current(), site, groups, uid)
    {
      var copies := map k | k in infoTable :: infoTable[k].State();
      assert copies == Current();
      planned := MakePlan(copies, site, groups, uid);
    }

    /** Plan a request and commit the plan. */
    method PlanAndCommit(items: seq<Item<Req>>, uid: nat, site: Site, answers: seq<bool>) returns (o: Outcome<seq<Item<Res>>>)
      requires Wired() && |answers| == |schedulers| && site.order == order
      modifies infoTable.Values
      ensures Wired()
      ensures (o, Current()) == Perform(old(Current()), site, items, uid, schedulers, answers)
    {
      if |items| == 0 { return Raised(BadRequest); }
      var groups, places := ExpandRequest(items);
      var planned := PlanOnCopies(groups, uid, site);
      PerformFollowsPlan(Current(), site, items, uid, schedulers, answers, planned);
      if planned.Raised? { return Raised(planned.error); }
      o := CommitPlan(items, places, planned.value, uid, answers);
    }

    function SiteFor(unusable: set<string>, candidates: set<string>): Site {
      Site(order, nodes, whenFree, unusable, candidates)
    }

    /** The owners in the table are those of live allocations and of this answer. */
    ghost predicate AccountedWith(uid: nat, answer: Outcome<seq<Item<Res>>>)
      reads this, allocations, infoTable.Values
    {
      Listed() && Conserved(initial, State(Current(), if answer.Done? then Live() + [Held(uid, HeldKeys(answer.value))] else Live()))
    }

    /** Plan and commit, on the nodes named if any are; nothing is listed yet. */
    method Answer(items: seq<Item<Req>>, uid: nat, candidates: set<string>, unusable: set<string>, answers: seq<bool>)
      returns (answer: Outcome<seq<Item<Res>>>)
      requires Wired() && |answers| == |schedulers|
      modifies infoTable.Values
      ensures Wired() && Live() == old(Live()) && (old(Listed()) ==> Listed())
      ensures (answer, Current()) == Perform(old(Current()), SiteFor(unusable, candidates), items, uid, schedulers, answers)
      ensures old(Accounted()) && Fair(old(Current()), items, schedulers) ==>
                AccountedWith(uid, answer) && (answer.Raised? ==> Current() == old(Current()))
      ensures answer.Done? ==> UsableNodes.HandedOutOn(answer.value, unusable, candidates)
    {
      ghost var t, live, fair := Current(), Live(), Accounted() && Fair(Current(), items, schedulers);
      answer := PlanAndCommit(items, uid, SiteFor(unusable, candidates), answers);
      if fair { FairStaysConserved(initial, t, live, SiteFor(unusable, candidates), items, uid, schedulers, answers); }
      if answer.Done? { UsableNodes.HandedOutOnUsable(t, SiteFor(unusable, candidates), items, uid, schedulers, answers); }
      assert Live() == live;
    }

    /** List a new allocation. */
    method Enlist(out: seq<Item<Res>>, uid: nat) returns (allocation: Allocation)
      modifies this`allocations
      ensures fresh(allocation) && allocations == old(allocations) + [allocation]
      ensures allocation.resources == Some(out) && allocation.user == Some(uid)
      ensures Live() == old(Live()) + [Held(uid, HeldKeys(out))]
      ensures old(Listed()) ==> Listed()
    {
      allocation := new Allocation(out, uid);
      allocations := allocations + [allocation];
    }

    /** Allocate what is requested, on the nodes named if any are, for a user. The
        nodes that are down and the schedulers' answers come from outside. */
    method Allocate(items: seq<Item<Req>>, uid: nat, candidates: set<string>, unusable: set<string>, answers: seq<bool>)
      returns (o: Outcome<Allocation>)
      requires Wired() && |answers| == |schedulers|
      modifies this`allocations, infoTable.Values
      ensures Wired()
      ensures o.Raised? ==> allocations == old(allocations)
      ensures o.Done? ==> fresh(o.value) && allocations == old(allocations) + [o.value] && o.value.user == Some(uid) && o.value.resources.Some?
      ensures (AnswerOf(o), Current()) == Perform(old(Current()), SiteFor(unusable, candidates), items, uid, schedulers, answers)
      ensures o.Done? ==> UsableNodes.HandedOutOn(o.value.resources.value, unusable, candidates)
      ensures old(Accounted()) && Fair(old(Current()), items, schedulers) ==> Accounted() && (o.Raised? ==> Current() == old(Current()))
    {
      var answer := Answer(items, uid, candidates, unusable, answers);
      if answer.Raised? { return Raised(answer.error); }
      var allocation := Enlist(answer.value, uid);
      o := Done(allocation);
    }

    // ------------------------------------------------------------ freeing

    /** Take one ownership of a resource away from a user. */
    method FreeOne(k: Key, uid: nat) returns (ok: bool)
      requires Wired() && k in infoTable
      modifies infoTable.Values
      ensures Wired()
      ensures var t := old(Current());
              ok == CanShrink(t[k], uid) && Current() == if ok then t[k := Shrink(t[k], uid)] else t
    {
      var r := infoTable[k];
      ghost var t := Current();
      ShrinkSafeIfAllowed(t[k], uid);
      ok := r.Deallocate(uid);
      assert r.State() == if ok then Shrink(t[k], uid) else t[k];
      OneChanged(infoTable, order, initial, k, t);
    }

    method FreeList(rs: seq<Res>, uid: nat) returns (ok: bool)
      requires Wired()
      modifies infoTable.Values
      ensures Wired()
      ensures Freed(ok, Current()) == FreeKeys(old(Current()), KeysIn(rs), uid)
    {
      for n := 0 to |rs|
        invariant Wired()
        invariant FreeKeys(old(Current()), KeysIn(rs), uid) == FreeKeys(Current(), KeysIn(rs[n..]), uid)
      {
        assert rs[n..][0] == rs[n] && rs[n..][1..] == rs[n + 1..];
        var k := rs[n].Key();
        assert KeysIn(rs[n..]) == [k] + KeysIn(rs[n + 1..]);
        if k !in infoTable { return false; }
        var done := FreeOne(k, uid);
        if !done { return false; }
      }
      ok := true;
    }

    method FreeSubLists(lists: seq<seq<Res>>, uid: nat) returns (ok: bool)
      requires Wired()
      modifies infoTable.Values
      ensures Wired()
      ensures Freed(ok, Current()) == FreeKeys(old(Current()), KeysIn(Concat(lists)), uid)
    {
      for n := 0 to |lists|
        invariant Wired()
        invariant FreeKeys(old(Current()), KeysIn(Concat(lists)), uid) == FreeKeys(Current(), KeysIn(Concat(lists[n..])), uid)
      {
        assert lists[n..][0] == lists[n] && lists[n..][1..] == lists[n + 1..];
        KeysInAppend(lists[n], Concat(lists[n + 1..]));
        FreeKeysAppend(Current(), KeysIn(lists[n]), KeysIn(Concat(lists[n + 1..])), uid);
        var done := FreeList(lists[n], uid);
        if !done { return false; }
      }
      ok := true;
    }

    /** Free what an allocation holds, item by item. */
    method FreeItems(items: seq<Item<Res>>, uid: nat) returns (ok: bool)
      requires Wired()
      modifies infoTable.Values
      ensures Wired()
      ensures Freed(ok, Current()) == FreeKeys(old(Current()), HeldKeys(items), uid)
    {
      for n := 0 to |items|
        invariant Wired()
        invariant FreeKeys(old(Current()), HeldKeys(items), uid) == FreeKeys(Current(), HeldKeys(items[n..]), uid)
      {
        assert items[n..][0] == items[n] && items[n..][1..] == items[n + 1..];
        ConcatAppend(Lists(items[n]), AllLists(items[n + 1..]));
        KeysInAppend(Concat(Lists(items[n])), Concat(AllLists(items[n + 1..])));
        FreeKeysAppend(Current(), KeysIn(Concat(Lists(items[n]))), HeldKeys(items[n + 1..]), uid);
        var done := FreeSubLists(Lists(items[n]), uid);
        if !done { return false; }
      }
      ok := true;
    }

    /** Free what a listed allocation holds, and mark it as freed. */
    method Release(allocation: Allocation) returns (complaint: Option<Error>)
      requires Wired()
      modifies infoTable.Values, allocation
      ensures Wired() && (old(Listed()) ==> Listed())
      ensures old(allocation !in allocations || allocation.Holding().Released?) ==>
                complaint.Some? && Current() == old(Current()) && unchanged(allocation)
      ensures old(allocation in allocations && allocation.Holding().Held?) ==>
                var h := old(allocation.Holding());
                var f := FreeKeys(old(Current()), h.keys, h.uid);
                && Current() == f.table && (complaint.None? <==> f.ok)
                && allocation.Holding() == if f.ok then Released else h
    {
      if !(exists i | 0 <= i < |allocations| :: allocations[i] == allocation) { return Some(UnknownResource); }
      if allocation.resources.None? || allocation.user.None? { return Some(UserError); }
      var ok := FreeItems(allocation.resources.value, allocation.user.value);
      if !ok { return Some(UserError); }
      allocation.Deallocate();
      complaint := None;
    }

    /** Free an allocation. One that is not listed, or was freed before, is refused and
        nothing changes. While all owners are accounted for, a live allocation is always
        freed, each owner it removes is found, and the others stay accounted for. */
    method Deallocate(allocation: Allocation) returns (complaint: Option<Error>)
      requires Wired() && Accounted()
      modifies infoTable.Values, allocation
      ensures Wired() && Accounted() && allocations == old(allocations)
      ensures complaint.None? <==> old(allocation in allocations && allocation.Holding().Held?)
      ensures complaint.Some? ==> Current() == old(Current()) && unchanged(allocation)
      ensures complaint.None? ==>
                var h := old(allocation.Holding());
                FreeAll(old(Current()), h.keys, h.uid) == Some(Current()) && allocation.Holding() == Released
    {
      ghost var t, live := Current(), Live();
      ghost var h := allocation.Holding();
      complaint := Release(allocation);
      if allocation in allocations && h.Held? {
        ghost var i :| 0 <= i < |allocations| && allocations[i] == allocation;
        FreeingConserves(initial, t, live, i);
        assert Live() == live[i := Released];
      } else {
        assert Live() == live;
      }
    }
  }
}
