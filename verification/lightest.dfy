/** Which resource a request for one resource gets: of those that can serve it the
    lightest on its node, and of the nodes that have one the first in order. */
module Lightest {
  import opened Resources
  import opened Ledger
  import opened Matchers
  import opened MatchingSteps
  import opened Planner
  import opened PlanCommits
  import opened PlanTheorem
  import opened PlanSound
  import opened Sorting
  import opened Suits
  import opened Placing
  import opened Checks
  import opened SingleRequests
  import opened FreeLists
  import opened WholeNode
  import LastSlots

  // ------------------------------------------------------------- one node

  lemma LighterThanRest(rs: seq<Res>)
    requires Ascending(rs) && rs != []
    ensures forall r <- rs[1..] :: Weight(rs[0]) <= Weight(r)
  {
    forall r <- rs[1..]
      ensures Weight(rs[0]) <= Weight(r)
    {
      var i :| 0 <= i < |rs| - 1 && rs[1..][i] == r;
      assert rs[i + 1] == r;
    }
  }

  lemma AscendingFrom(r: Res, rs: seq<Res>)
    requires Ascending(rs) && forall s <- rs :: Weight(r) <= Weight(s)
    ensures Ascending([r] + rs)
  {
    var all := [r] + rs;
    assert forall j | 1 <= j < |all| :: all[j] == rs[j - 1] && rs[j - 1] in rs;
  }

  lemma {:induction false} OfClassAscending(rs: seq<Res>, c: ResClass)
    requires Ascending(rs)
    ensures Ascending(OfClass(rs, c))
  {
    if rs != [] {
      var rest := rs[1..];
      assert Ascending(rest);
      OfClassAscending(rest, c);
      OfClassMembers(rest, c);
      if rs[0].Key().cls == c {
        LighterThanRest(rs);
        AscendingFrom(rs[0], OfClass(rest, c));
      }
    }
  }

  /** The lightest resource that can serve the request. */
  ghost predicate LightestFor(rs: seq<Res>, q: Req, r: Res) {
    r in rs && CanAllocate(r, q) && forall s <- rs | CanAllocate(s, q) :: Weight(r) <= Weight(s)
  }

  lemma FirstIsLightest(list: seq<Res>, q: Req)
    requires Ascending(list) && FirstFit(list, q) < |list|
    ensures LightestFor(list, q, list[FirstFit(list, q)])
  {
    var i := FirstFit(list, q);
    forall s <- list | CanAllocate(s, q)
      ensures Weight(list[i]) <= Weight(s)
    {
      var j :| 0 <= j < |list| && list[j] == s;
      assert i <= j;
    }
  }

  /** From sorted resources a request gets the lightest one that can serve it. */
  lemma MatchedLightest(q: Req, rs: seq<Res>, uid: nat) returns (r: Res)
    requires Ascending(rs) && q.cls.Some? && DOF(q) != 0 && MatchPartly([q], rs, uid).Matched?
    ensures LightestFor(rs, q, r) && MatchPartly([q], rs, uid).reqs == [Resolve(q, r.Key())]
  {
    assert [q][1..] == [] && FixedOf([q]) == [];
    Placing.LastAssigned(q, ByClass(rs), uid);
    r := FirstOfClass(q, rs);
    AssignedTo(q, ByClass(rs), r, uid);
  }

  /** What first fit takes among all classes is the lightest that can serve. */
  lemma FirstOfClass(q: Req, rs: seq<Res>) returns (r: Res)
    requires Ascending(rs) && q.cls.Some? && FirstFit(ByClass(rs), q) < |ByClass(rs)|
    ensures LightestFor(rs, q, r) && ByClass(rs)[FirstFit(ByClass(rs), q)] == r
  {
    var c, lists := q.cls.value, LastSlots.Classes(rs);
    var list := OfClass(rs, c);
    LastSlots.ClassesAre(rs, c);
    OfClassAscending(rs, c);
    OfClassMembers(rs, c);
    FirstFitInClass(lists, q, FirstFit(list, q));
    FirstIsLightest(list, q);
    lists.FlatAround(c);
    r := list[FirstFit(list, q)];
  }

  lemma AssignedTo(q: Req, flat: seq<Res>, r: Res, uid: nat)
    requires DOF(q) != 0 && q.cls.Some? && FirstFit(flat, q) < |flat| && flat[FirstFit(flat, q)] == r
    ensures AssignFree([q], flat, uid).reqs == [Resolve(q, r.Key())]
  {
    var left := TakeAt(flat, FirstFit(flat, q), Resolve(q, r.Key()), uid);
    assert [q][1..] == [] && AssignFree([], left, uid) == Matched([], left);
    assert [Resolve(q, r.Key())] + [] == [Resolve(q, r.Key())];
  }

  // -------------------------------------------------------- all the nodes

  /** The lists are in step with the table: of each node that has something free, and of
      usable nodes only, they have exactly what is free. */
  ghost predicate InStep(t: Table, site: Site, avail: seq<NodeAvail>) {
    && NamesDistinct(avail)
    && (forall a <- avail :: OnNode(a) && Usable(site, a.name) && Mirrors(a.res, HostKeys(t, a.name), t))
    && (forall k <- t | Usable(site, k.host) && IsFree(t[k]) :: exists a <- avail :: a.name == k.host)
  }

  ghost predicate InLine(site: Site, avail: seq<NodeAvail>) {
    && (forall i, j | 0 <= i < j < |avail| :: InOrder(site, avail[i], avail[j]))
    && (forall a <- avail :: Ascending(a.res))
  }

  lemma InStepIsOk(t: Table, site: Site, avail: seq<NodeAvail>)
    requires InStep(t, site, avail)
    ensures AvailOk(avail, t)
  {
  }

  /** Where a free resource of a usable node is listed. */
  lemma ListedAt(t: Table, site: Site, avail: seq<NodeAvail>, k: Key) returns (j: nat)
    requires SafeTable(t) && InStep(t, site, avail) && k in t && Usable(site, k.host) && IsFree(t[k])
    ensures j < |avail| && avail[j].name == k.host && t[k] in avail[j].res
  {
    var a :| a in avail && a.name == k.host;
    j :| 0 <= j < |avail| && avail[j] == a;
    assert k in HostKeys(t, a.name);
  }

  lemma ListedFrom(t: Table, site: Site, avail: seq<NodeAvail>, m: nat, r: Res)
    requires InStep(t, site, avail) && m < |avail| && r in avail[m].res
    ensures r.Key() in t && t[r.Key()] == r && IsFree(r) && r.Key().host == avail[m].name && Usable(site, avail[m].name)
  {
    assert avail[m] in avail;
  }

  // --------------------------------------------------- the weight of a node

  lemma {:induction false} SameWeight(rs: seq<Res>, ss: seq<Res>)
    requires Distinct(rs) && Distinct(ss) && forall r :: r in rs <==> r in ss
    ensures TotalWeight(rs) == TotalWeight(ss)
    decreases |rs|
  {
    if rs == [] {
      if ss != [] { FirstIsIn(ss); }
    } else {
      var r := rs[0];
      assert r in ss;
      var i :| 0 <= i < |ss| && ss[i] == r;
      WeightWithout(ss, i);
      WithoutMembers(ss, i);
      TailMembers(rs);
      SameWeight(rs[1..], Without(ss, i));
    }
  }

  lemma WithoutMembers(ss: seq<Res>, i: nat)
    requires i < |ss| && Distinct(ss)
    ensures Distinct(Without(ss, i)) && forall r :: r in Without(ss, i) <==> r in ss && r != ss[i]
  {
    var rest := Without(ss, i);
    assert forall j | 0 <= j < |rest| :: rest[j] == ss[if j < i then j else j + 1];
    forall r | r in ss && r != ss[i]
      ensures r in rest
    {
      var j :| 0 <= j < |ss| && ss[j] == r;
      assert rest[if j < i then j else j - 1] == r;
    }
  }

  lemma TailMembers(rs: seq<Res>)
    requires rs != [] && Distinct(rs)
    ensures Distinct(rs[1..]) && forall r :: r in rs[1..] <==> r in rs && r != rs[0]
  {
    assert rs == [rs[0]] + rs[1..];
    forall r <- rs[1..]
      ensures r != rs[0]
    {
      var j :| 0 <= j < |rs| - 1 && rs[1..][j] == r;
      assert rs[j + 1] == r;
    }
  }

  function FreeNode(t: Table, site: Site, h: string): NodeAvail { NodeAvail(h, FreeAt(t, site, h)) }

  /** What a node lists weighs what is free on it. */
  lemma ListedWeight(t: Table, site: Site, avail: seq<NodeAvail>, m: nat)
    requires Complete(t, site) && InStep(t, site, avail) && m < |avail|
    ensures TotalWeight(avail[m].res) == TotalWeight(FreeAt(t, site, avail[m].name))
  {
    var a, pool := avail[m], FreePool(t, site);
    assert a in avail;
    FreeOnOk(site.order, pool, a.name);
    FreeOnMembers(site.order, pool, a.name);
    forall r
      ensures r in a.res <==> r in FreeAt(t, site, a.name)
    {
      if r in a.res { ListedFrom(t, site, avail, m, r); }
    }
    SameWeight(a.res, FreeAt(t, site, a.name));
  }

  lemma ListedOrder(t: Table, site: Site, avail: seq<NodeAvail>, i: nat, j: nat)
    requires Complete(t, site) && InStep(t, site, avail) && InLine(site, avail) && i < j < |avail|
    ensures InOrder(site, FreeNode(t, site, avail[i].name), FreeNode(t, site, avail[j].name))
  {
    ListedWeight(t, site, avail, i);
    ListedWeight(t, site, avail, j);
  }

  // ------------------------------------------------------------ the cheapest

  /** The resource under this key can serve the request. */
  ghost predicate Serves(t: Table, site: Site, q: Req, k: Key) {
    k in t && Usable(site, k.host) && SuitsReq(t[k].attrs, q) && HasRoom(t[k], q)
  }

  /** Of the resources that can serve the request none on the same node is lighter, and no
      other node that has one comes before, but for the barred ones. */
  ghost predicate Cheapest(t: Table, site: Site, barred: set<string>, q: Req, k: Key) {
    && Serves(t, site, q, k) && k.host !in barred
    && (forall l | Serves(t, site, q, l) && l.host == k.host :: Weight(t[k]) <= Weight(t[l]))
    && (forall l | Serves(t, site, q, l) && l.host != k.host && l.host !in barred ::
          InOrder(site, FreeNode(t, site, k.host), FreeNode(t, site, l.host)))
  }

  lemma ServesIs(t: Table, site: Site, q: Req, k: Key)
    requires SafeTable(t) && k in t
    ensures Serves(t, site, q, k) <==> Usable(site, k.host) && CanAllocate(t[k], q)
  {
    AllocateMeans(t[k], q);
  }

  /** The first node that serves and is not barred has the cheapest: its lightest. */
  lemma FirstIsCheapest(t: Table, site: Site, avail: seq<NodeAvail>, barred: set<string>, q: Req, m: nat, r: Res)
    requires Complete(t, site) && InStep(t, site, avail) && InLine(site, avail)
    requires m < |avail| && LightestFor(avail[m].res, q, r) && avail[m].name !in barred
    requires forall j | 0 <= j < m :: avail[j].name in barred || !SomeServes(avail[j].res, q)
    ensures Cheapest(t, site, barred, q, r.Key())
  {
    ListedFrom(t, site, avail, m, r);
    ServesIs(t, site, q, r.Key());
    forall l | Serves(t, site, q, l)
      ensures l.host == r.Key().host ==> Weight(r) <= Weight(t[l])
      ensures l.host != r.Key().host && l.host !in barred ==> InOrder(site, FreeNode(t, site, r.Key().host), FreeNode(t, site, l.host))
    {
      ServesIs(t, site, q, l);
      var j := ListedAt(t, site, avail, l);
      assert SomeServes(avail[j].res, q);
      if m < j { ListedOrder(t, site, avail, m, j); }
      if l.host == r.Key().host { assert j == m; }
    }
  }

  /** On a node that is named, its lightest is the cheapest there is. */
  lemma OnlyHostIsCheapest(t: Table, site: Site, avail: seq<NodeAvail>, q: Req, m: nat, r: Res)
    requires Complete(t, site) && InStep(t, site, avail)
    requires m < |avail| && LightestFor(avail[m].res, q, r) && q.host == Some(avail[m].name)
    ensures Cheapest(t, site, {}, q, r.Key())
  {
    ListedFrom(t, site, avail, m, r);
    ServesIs(t, site, q, r.Key());
    forall l | Serves(t, site, q, l)
      ensures l.host == r.Key().host && Weight(r) <= Weight(t[l])
    {
      ServesIs(t, site, q, l);
      var j := ListedAt(t, site, avail, l);
      assert j == m;
    }
  }

  // -------------------------------------------------------- sorting, dropping

  lemma SortedInStep(t: Table, site: Site, avail: seq<NodeAvail>)
    requires InStep(t, site, avail)
    ensures InStep(t, site, SortAvail(site, avail)) && InLine(site, SortAvail(site, avail))
  {
    var sorted := SortAvail(site, avail);
    SortAvailOk(site, avail, t);
    SortAvailSorts(site, avail);
    SortedMembers(site, avail);
    forall b <- sorted
      ensures OnNode(b) && Usable(site, b.name) && Mirrors(b.res, HostKeys(t, b.name), t) && Ascending(b.res)
    {
      var a :| a in avail && b == a.(res := SortRes(a.res));
      SortResMembers(a.res);
      SortResSorts(a.res, 0);
    }
    forall k <- t | Usable(site, k.host) && IsFree(t[k])
      ensures exists b <- sorted :: b.name == k.host
    {
      var a :| a in avail && a.name == k.host;
      assert a.(res := SortRes(a.res)) in sorted;
    }
    assert |sorted| == |multiset(sorted)| == |multiset(EachSorted(avail))| == |EachSorted(avail)| == |avail|;
  }

  lemma DroppedInStep(t: Table, site: Site, avail: seq<NodeAvail>)
    requires SafeTable(t) && InStep(t, site, avail)
    ensures InStep(t, site, DropEmpty(avail))
  {
    DropEmptyOk(avail, t);
    DroppedMembers(avail);
    forall k <- t | Usable(site, k.host) && IsFree(t[k])
      ensures exists a <- DropEmpty(avail) :: a.name == k.host
    {
      var j := ListedAt(t, site, avail, k);
      assert avail[j] in avail && avail[j].res != [];
    }
  }

  // ---------------------------------------------------- what one node gives

  lemma FilledOne(q: Req, p: Req)
    requires DOF(q) != 0
    ensures Fill([q], [p]) == [p]
  {
    assert [q][1..] == [] && [p][1..] == [];
    assert Fill([q], [p]) == [p] + Fill([], []);
  }

  lemma LightestMoved(a: NodeAvail, q: Req, r: Res)
    requires OnNode(a) && q.host.None? && LightestFor(a.res, OnHost(q, a.name), r)
    ensures LightestFor(a.res, q, r)
  {
    forall s <- a.res
      ensures CanAllocate(s, OnHost(q, a.name)) <==> CanAllocate(s, q)
    {
      assert s.Key().host == a.name;
    }
  }

  lemma NoneThere(b: NodeAvail, q: Req, uid: nat)
    requires OnNode(b) && DOF(q) == 3 && q.cls.Some? && OnNodeOf([q], b, uid).NoMatch?
    ensures !SomeServes(b.res, q)
  {
    AloneIsPasted(q);
    assert OnHosts([q], b.name) == [OnHost(q, b.name)];
    OneMatched(OnHost(q, b.name), b.res, uid);
    SingleRequests.MovedServes(b, q);
  }

  /** A node that serves the request gives its lightest resource that can. */
  lemma ThereLightest(b: NodeAvail, q: Req, uid: nat) returns (r: Res)
    requires OnNode(b) && DOF(q) == 3 && q.cls.Some? && Ascending(b.res) && OnNodeOf([q], b, uid).Matched?
    ensures LightestFor(b.res, q, r) && OnNodeOf([q], b, uid).reqs == [Resolve(q, r.Key())]
  {
    AloneIsPasted(q);
    var moved := OnHost(q, b.name);
    assert OnHosts([q], b.name) == [moved];
    r := MatchedLightest(moved, b.res, uid);
    LightestMoved(b, q, r);
    assert Resolve(moved, r.Key()) == Resolve(q, r.Key());
  }

  /** On a node only one resource has the index asked for. */
  lemma IndexedIsOnly(a: NodeAvail, q: Req, r: Res)
    requires OnNode(a) && Distinct(a.res) && DOF(q) == 1 && r in a.res && CanAllocate(r, q)
    ensures LightestFor(a.res, q, r) && Resolve(q, r.Key()) == OnHost(q, a.name)
  {
    forall s <- a.res | CanAllocate(s, q)
      ensures s == r
    {
      assert s.Key() == r.Key();
      var i :| 0 <= i < |a.res| && a.res[i] == s;
      var j :| 0 <= j < |a.res| && a.res[j] == r;
    }
  }
}
