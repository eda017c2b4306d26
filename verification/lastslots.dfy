/** Clusters in which every resource has one slot left: requests that one kind of
    resource serves alike, what the matchers do with such resources, and a table and a
    site that hold exactly these. */
module LastSlots {
  import opened Resources
  import opened Ledger
  import opened Matchers
  import opened MatchingSteps
  import opened Planner
  import opened PlanCommits
  import opened PlanTheorem
  import opened PlanSound
  import opened Sorting
  import LookAhead

  // ------------------------------------------------------------ the requests

  /** Requests with an index and no host that name different resources of a node. */
  ghost predicate IndexOnly(qs: seq<Req>) {
    && qs != [] && (forall q <- qs :: q.cls.Some? && DOF(q) == 1)
    && forall i, j | 0 <= i < j < |qs| :: qs[i].cls != qs[j].cls || qs[i].idx != qs[j].idx
  }

  /** Requests for any resource of one class on a host. */
  ghost predicate HostOnly(ws: seq<Req>, host: string) {
    forall w <- ws :: w.cls.Some? && DOF(w) == 2 && w.host == Some(host)
  }

  ghost predicate BothOr<T>(x: Option<T>, y: Option<T>) { x.Some? && y.Some? ==> x == y }

  /** Two requests one kind of resource could serve alike. */
  ghost predicate Alike(u: Req, w: Req) {
    && u.cls == w.cls && u.shared == w.shared && BothOr(u.typ, w.typ)
    && (u.cls == Some(GPU) ==> BothOr(u.useScanOut, w.useScanOut))
  }

  ghost predicate AllAlike(ws: seq<Req>) { forall u <- ws, w <- ws :: Alike(u, w) }

  function Or<T>(x: Option<T>, y: Option<T>): Option<T> { if x.Some? then x else y }

  /** What a kind of resource must be to serve them all. */
  function Common(ws: seq<Req>): Req
    requires ws != []
  {
    if |ws| == 1 then ws[0]
    else
      var m := Common(ws[1..]);
      ws[0].(typ := Or(ws[0].typ, m.typ), useScanOut := Or(ws[0].useScanOut, m.useScanOut))
  }

  /** Whatever serves m serves w. */
  ghost predicate Covers(m: Req, w: Req) {
    && w.cls == m.cls && w.shared == m.shared && (w.typ.Some? ==> w.typ == m.typ)
    && (w.cls == Some(GPU) && w.useScanOut.Some? ==> w.useScanOut == m.useScanOut)
  }

  lemma {:induction false} CommonIsTaken(ws: seq<Req>)
    requires ws != []
    ensures Common(ws).cls == ws[0].cls && Common(ws).shared == ws[0].shared
    ensures Common(ws).typ.Some? ==> exists w <- ws :: w.typ == Common(ws).typ
    ensures Common(ws).useScanOut.Some? ==> exists w <- ws :: w.useScanOut == Common(ws).useScanOut
  {
    if |ws| > 1 {
      var m, rest := Common(ws[1..]), ws[1..];
      CommonIsTaken(rest);
      assert ws[0] in ws;
      if m.typ.Some? { var w :| w in rest && w.typ == m.typ; assert w in ws; }
      if m.useScanOut.Some? { var w :| w in rest && w.useScanOut == m.useScanOut; assert w in ws; }
    } else {
      assert ws[0] in ws;
    }
  }

  lemma {:induction false} CommonCovers(ws: seq<Req>)
    requires ws != [] && AllAlike(ws)
    ensures forall w <- ws :: Covers(Common(ws), w)
  {
    if |ws| > 1 {
      CommonCovers(ws[1..]);
      CommonIsTaken(ws[1..]);
      CommonIsTaken(ws);
      assert ws[0] in ws && forall w <- ws[1..] :: w in ws && Alike(ws[0], w);
      assert ws == [ws[0]] + ws[1..];
    }
  }

  // ----------------------------------------------------------- the resources

  /** The last slot for such a request. */
  predicate LastSlot(r: Res, shared: bool) {
    if shared then r.shared && |r.owners| + 1 == r.attrs.limit else !r.shared && r.owners == []
  }

  /** A resource with one slot left, of the kind m asks for, that weighs n. */
  function Made(m: Req, key: Key, n: int, other: nat): (r: Res)
    ensures r.Key() == key && Safe(r) && IsFree(r) && LastSlot(r, m.shared) && Weight(r) == n
  {
    var a := Attrs(key, m.typ, if m.shared then 2 else 1, 0, m.useScanOut,
                   if m.useScanOut == Some(true) then Some(0) else None, 0, None);
    var r := Res(a, if m.shared then [other] else [], m.shared, if m.shared && key.cls == GPU then [other] else []);
    r.(attrs := a.(bias := n - Weight(r)))
  }

  lemma MadeServes(m: Req, key: Key, n: int, other: nat, q: Req)
    requires Covers(m, q) && q.cls == Some(key.cls)
    requires (q.idx.Some? ==> q.idx == Some(key.idx)) && (q.host.Some? ==> q.host == Some(key.host))
    ensures CanAllocate(Made(m, key, n, other), q)
  {
  }

  lemma LastIsTaken(rs: seq<Res>, i: nat, q: Req, uid: nat)
    requires i < |rs| && LastSlot(rs[i], q.shared) && CanAllocate(rs[i], q)
    ensures TakeAt(rs, i, q, uid) == rs[..i] + rs[i + 1..]
  {
  }

  // ------------------------------------------------------- what matching does

  /** Each resource has one slot left, and only for its own request. */
  ghost predicate OwnSlots(qs: seq<Req>, rs: seq<Res>) {
    && |qs| == |rs|
    && (forall i | 0 <= i < |qs| :: DOF(qs[i]) == 0 && CanAllocate(rs[i], qs[i]) && LastSlot(rs[i], qs[i].shared))
    && forall i, j | 0 <= i < j < |qs| :: !CanAllocate(rs[j], qs[i]) && !CanAllocate(rs[i], qs[j])
  }

  /** Fixed requests take the resources made for them and nothing else. */
  lemma {:induction false} OwnSlotsTaken(qs: seq<Req>, before: seq<Res>, rs: seq<Res>, uid: nat)
    requires OwnSlots(qs, rs) && forall r <- before, q <- qs :: !CanAllocate(r, q)
    ensures MatchFixed(qs, before + rs, uid) == Some(before)
    decreases |qs|
  {
    if qs == [] {
      assert before + rs == before;
    } else {
      var q, avail := qs[0], before + rs;
      assert q in qs;
      FirstFitSkips(before, rs, q);
      FirstFitIs(rs, q, 0);
      assert avail[|before|] == rs[0];
      LastIsTaken(avail, |before|, q, uid);
      assert avail[..|before|] + avail[|before| + 1..] == before + rs[1..];
      assert OwnSlots(qs[1..], rs[1..]);
      OwnSlotsTaken(qs[1..], before, rs[1..], uid);
    }
  }

  /** Each resource has one slot left and can give it to any of the requests. */
  ghost predicate AnySlots(ws: seq<Req>, rs: seq<Res>) {
    && (forall w <- ws :: DOF(w) != 0 && w.cls.Some?)
    && forall r <- rs, w <- ws :: CanAllocate(r, w) && LastSlot(r, w.shared)
  }

  /** The first requests resolved to the resources, in turn. */
  function Resolved(ws: seq<Req>, rs: seq<Res>): seq<Req>
    requires |rs| <= |ws|
  {
    seq(|rs|, i requires 0 <= i < |rs| => Resolve(ws[i], rs[i].Key()))
  }

  lemma ResolvedFits(r: Res, w: Req)
    requires CanAllocate(r, w)
    ensures CanAllocate(r, Resolve(w, r.Key())) && DOF(Resolve(w, r.Key())) == 0
  {
  }

  lemma FirstIsServed(ws: seq<Req>, rs: seq<Res>, uid: nat)
    requires ws != [] && rs != [] && DOF(ws[0]) != 0 && CanAllocate(rs[0], ws[0]) && LastSlot(rs[0], ws[0].shared)
    ensures AssignFree(ws, rs, uid) == After([Resolve(ws[0], rs[0].Key())], AssignFree(ws[1..], rs[1..], uid))
  {
    FirstFitIs(rs, ws[0], 0);
    var p := Resolve(ws[0], rs[0].Key());
    ResolvedFits(rs[0], ws[0]);
    LastIsTaken(rs, 0, p, uid);
    assert rs[..0] + rs[0 + 1..] == rs[1..];
  }

  lemma ResolvedStep(ws: seq<Req>, rs: seq<Res>)
    requires |ws| == |rs| + 1 && rs != []
    ensures [Resolve(ws[0], rs[0].Key())] + (Resolved(ws[1..], rs[1..]) + [ws[1..][|rs[1..]|]]) == Resolved(ws, rs) + [ws[|rs|]]
  {
  }

  /** One request too many: all resources are handed out, the last request is refused. */
  lemma {:induction false} OneTooMany(ws: seq<Req>, rs: seq<Res>, uid: nat)
    requires |ws| == |rs| + 1 && AnySlots(ws, rs)
    ensures AssignFree(ws, rs, uid) == NoMatch(Resolved(ws, rs) + [ws[|rs|]])
    decreases |rs|
  {
    assert ws[0] in ws;
    if rs == [] {
      assert ws == [ws[0]] && Resolved(ws, rs) + [ws[0]] == ws;
    } else {
      assert rs[0] in rs;
      FirstIsServed(ws, rs, uid);
      assert AnySlots(ws[1..], rs[1..]);
      OneTooMany(ws[1..], rs[1..], uid);
      ResolvedStep(ws, rs);
    }
  }

  lemma {:induction false} NoneFixed(reqs: seq<Req>)
    requires forall q <- reqs :: DOF(q) != 0
    ensures FixedOf(reqs) == [] && FreeOf(reqs) == reqs
  {
    if reqs != [] {
      assert reqs[0] in reqs;
      NoneFixed(reqs[1..]);
      assert reqs == [reqs[0]] + reqs[1..];
    }
  }

  lemma {:induction false} OfOneClass(rs: seq<Res>, c: ResClass, d: ResClass)
    requires forall r <- rs :: r.Key().cls == c
    ensures OfClass(rs, d) == if c == d then rs else []
  {
    if rs != [] {
      assert rs[0] in rs;
      OfOneClass(rs[1..], c, d);
      assert rs == [rs[0]] + rs[1..];
    }
  }

  lemma ByOneClass(rs: seq<Res>, c: ResClass)
    requires forall r <- rs :: r.Key().cls == c
    ensures ByClass(rs) == rs
  {
    OfOneClass(rs, c, GPU);
    OfOneClass(rs, c, Server);
    OfOneClass(rs, c, Keyboard);
    OfOneClass(rs, c, Mouse);
    OfOneClass(rs, c, SLI);
    assert rs + [] == rs && [] + rs == rs;
  }

  /** A list of requests that resources of one class nearly suffice for is matched in
      part. */
  lemma LookRunsOut(ws: seq<Req>, rs: seq<Res>, c: ResClass, uid: nat)
    requires |ws| == |rs| + 1 && AnySlots(ws, rs) && forall r <- rs :: r.Key().cls == c
    ensures MatchPartly(ws, rs, uid) == NoMatch(Resolved(ws, rs) + [ws[|rs|]])
  {
    NoneFixed(ws);
    ByOneClass(rs, c);
    OneTooMany(ws, rs, uid);
  }

  function Classes(rs: seq<Res>): ClassLists {
    ClassLists(OfClass(rs, GPU), OfClass(rs, Server), OfClass(rs, Keyboard), OfClass(rs, Mouse), OfClass(rs, SLI))
  }

  lemma ClassesAre(rs: seq<Res>, c: ResClass)
    ensures Classes(rs).Valid() && Classes(rs).Flat() == ByClass(rs) && Classes(rs).Get(c) == OfClass(rs, c)
  {
    OfClassMembers(rs, GPU);
    OfClassMembers(rs, Server);
    OfClassMembers(rs, Keyboard);
    OfClassMembers(rs, Mouse);
    OfClassMembers(rs, SLI);
  }

  /** The first resource of a list is the first of its class. */
  lemma FirstServes(r: Res, rs: seq<Res>, w: Req, uid: nat)
    requires DOF(w) != 0 && CanAllocate(r, w)
    ensures MatchPartly([w], [r] + rs, uid).Matched?
    ensures MatchPartly([w], [r] + rs, uid).reqs == [Resolve(w, r.Key())]
  {
    var all, c := [r] + rs, r.Key().cls;
    var lists := Classes(all);
    NoneFixed([w]);
    ClassesAre(all, c);
    assert all[1..] == rs && lists.Get(c)[0] == r;
    FirstFitIs(lists.Get(c), w, 0);
    FirstFitInClass(lists, w, 0);
    lists.FlatAround(c);
    var i := FirstFit(ByClass(all), w);
    assert ByClass(all)[i] == r;
    var p := Resolve(w, r.Key());
    assert [w][1..] == [];
    var left := TakeAt(ByClass(all), i, p, uid);
    assert AssignFree([], left, uid) == Matched([], left) && [p] + [] == [p];
  }

  // ---------------------------------------------------------------- the cluster

  /** The parts of such a request, a second node, and someone who shares resources. */
  datatype Mix = Mix(qs: seq<Req>, ws: seq<Req>, a: string, b: string, other: nat)

  ghost predicate Good(x: Mix) {
    x.a != x.b && IndexOnly(x.qs) && HostOnly(x.ws, x.a) && AllAlike(x.ws) && |x.ws| >= 2
  }

  function Asked(x: Mix): seq<Group> { [Reqs(x.qs), Reqs(x.ws)] }

  function ClassOf(q: Req): ResClass { if q.cls.Some? then q.cls.value else GPU }

  function IndexOf(q: Req): int { if q.idx.Some? then q.idx.value else 0 }

  /** A number above all indices asked for. */
  function Above(qs: seq<Req>): (n: int)
    ensures forall i | 0 <= i < |qs| :: IndexOf(qs[i]) < n
  {
    if qs == [] then 0
    else
      var n := Above(qs[1..]);
      assert forall i | 1 <= i < |qs| :: qs[i] == qs[1..][i - 1];
      if IndexOf(qs[0]) >= n then IndexOf(qs[0]) + 1 else n
  }

  /** Resources of one kind in a row, each heavier than the one before. */
  function Row(m: Req, c: ResClass, n: int, host: string, size: nat, other: nat): (rs: seq<Res>)
    ensures |rs| == size
    ensures forall i | 0 <= i < size :: rs[i] == Made(m, Key(c, n + i, host), i, other)
  {
    seq(size, i requires 0 <= i < size => Made(m, Key(c, n + i, host), i, other))
  }

  /** One resource less than there are requests for the host. */
  function Slots(x: Mix): (rs: seq<Res>)
    requires x.ws != []
    ensures |rs| == |x.ws| - 1
    ensures forall i | 0 <= i < |rs| :: rs[i].Key() == Key(ClassOf(x.ws[0]), Above(x.qs) + i, x.a) && Weight(rs[i]) == i
  {
    Row(Common(x.ws), ClassOf(x.ws[0]), Above(x.qs), x.a, |x.ws| - 1, x.other)
  }

  /** What the index-only list names, on one node. */
  function Named(x: Mix, host: string, n: int): (rs: seq<Res>)
    ensures |rs| == |x.qs|
    ensures forall i | 0 <= i < |rs| :: rs[i].Key() == Key(ClassOf(x.qs[i]), IndexOf(x.qs[i]), host) && Weight(rs[i]) == n + i
  {
    seq(|x.qs|, i requires 0 <= i < |x.qs| =>
      Made(x.qs[i], Key(ClassOf(x.qs[i]), IndexOf(x.qs[i]), host), n + i, x.other))
  }

  function OnA(x: Mix): seq<Res>
    requires x.ws != []
  {
    Slots(x) + Named(x, x.a, |x.ws|)
  }

  function OnB(x: Mix): seq<Res> { Named(x, x.b, 0) }

  lemma SlotsFit(x: Mix)
    requires Good(x)
    ensures AnySlots(x.ws, Slots(x))
    ensures forall r <- Slots(x) :: r.Key().cls == ClassOf(x.ws[0]) && r.Key().host == x.a
  {
    var m := Common(x.ws);
    CommonCovers(x.ws);
    CommonIsTaken(x.ws);
    assert x.ws[0] in x.ws;
    forall r <- Slots(x), w <- x.ws
      ensures CanAllocate(r, w) && LastSlot(r, w.shared)
    {
      var i :| 0 <= i < |Slots(x)| && Slots(x)[i] == r;
      var k := Key(ClassOf(x.ws[0]), Above(x.qs) + i, x.a);
      assert Covers(m, w) && Alike(x.ws[0], w);
      MadeServes(m, k, i, x.other, w);
    }
  }

  lemma NamedFit(x: Mix, host: string, n: int)
    requires IndexOnly(x.qs)
    ensures OwnSlots(OnHosts(x.qs, host), Named(x, host, n))
  {
    var rs, moved := Named(x, host, n), OnHosts(x.qs, host);
    forall i | 0 <= i < |x.qs|
      ensures DOF(moved[i]) == 0 && CanAllocate(rs[i], moved[i]) && LastSlot(rs[i], moved[i].shared)
    {
      var q, k := x.qs[i], Key(ClassOf(x.qs[i]), IndexOf(x.qs[i]), host);
      assert q in x.qs;
      MadeServes(q, k, n + i, x.other, moved[i]);
    }
    forall i, j | 0 <= i < |x.qs| && 0 <= j < |x.qs| && i != j
      ensures !CanAllocate(rs[j], moved[i])
    {
      assert x.qs[i] in x.qs && x.qs[j] in x.qs;
    }
  }

  lemma SlotsDontServe(x: Mix)
    requires Good(x)
    ensures forall r <- Slots(x), q <- OnHosts(x.qs, x.a) :: !CanAllocate(r, q)
  {
    forall r <- Slots(x), q <- OnHosts(x.qs, x.a)
      ensures !CanAllocate(r, q)
    {
      var i :| 0 <= i < |Slots(x)| && Slots(x)[i] == r;
      var j :| 0 <= j < |x.qs| && OnHosts(x.qs, x.a)[j] == q;
      assert x.qs[j] in x.qs && IndexOf(x.qs[j]) < Above(x.qs);
    }
  }

  // ------------------------------------------------------------- the table

  function TableOf(rs: seq<Res>): Table {
    if rs == [] then map[] else TableOf(rs[1..])[rs[0].Key() := rs[0]]
  }

  lemma {:induction false} TableHolds(rs: seq<Res>)
    requires Distinct(rs)
    ensures forall r <- rs :: r.Key() in TableOf(rs) && TableOf(rs)[r.Key()] == r
    ensures forall k <- TableOf(rs) :: TableOf(rs)[k] in rs && TableOf(rs)[k].Key() == k
  {
    if rs != [] {
      assert Distinct(rs[1..]);
      TableHolds(rs[1..]);
      forall r <- rs
        ensures r.Key() in TableOf(rs) && TableOf(rs)[r.Key()] == r
      {
        var i :| 0 <= i < |rs| && rs[i] == r;
        assert i == 0 || (rs[1..][i - 1] == r && rs[0].Key() != rs[i].Key());
      }
      assert rs == [rs[0]] + rs[1..];
    }
  }

  function Keys(rs: seq<Res>): seq<Key> { seq(|rs|, i requires 0 <= i < |rs| => rs[i].Key()) }

  lemma SlotsDistinct(x: Mix)
    requires x.ws != []
    ensures Distinct(Slots(x))
  {
  }

  lemma NamedDistinct(x: Mix, host: string, n: int)
    requires IndexOnly(x.qs)
    ensures Distinct(Named(x, host, n))
  {
    forall i, j | 0 <= i < j < |x.qs|
      ensures Named(x, host, n)[i].Key() != Named(x, host, n)[j].Key()
    {
      assert x.qs[i] in x.qs && x.qs[j] in x.qs;
    }
  }

  lemma ApartDistinct(rs: seq<Res>, ss: seq<Res>)
    requires Distinct(rs) && Distinct(ss) && forall r <- rs, s <- ss :: r.Key() != s.Key()
    ensures Distinct(rs + ss)
  {
    forall i, j | 0 <= i < j < |rs + ss|
      ensures (rs + ss)[i].Key() != (rs + ss)[j].Key()
    {
      if i < |rs| <= j { assert rs[i] in rs && ss[j - |rs|] in ss; }
    }
  }

  lemma SlotsApart(x: Mix)
    requires x.ws != []
    ensures forall r <- Slots(x), s <- Named(x, x.a, |x.ws|) :: r.Key() != s.Key()
  {
    forall r <- Slots(x), s <- Named(x, x.a, |x.ws|)
      ensures r.Key() != s.Key()
    {
      var i :| 0 <= i < |Slots(x)| && Slots(x)[i] == r;
      var j :| 0 <= j < |x.qs| && Named(x, x.a, |x.ws|)[j] == s;
      assert IndexOf(x.qs[j]) < Above(x.qs);
    }
  }

  /** Free resources of one node. */
  ghost predicate FreeAt(rs: seq<Res>, host: string) {
    Distinct(rs) && forall r <- rs :: r.Key().host == host && Safe(r) && IsFree(r)
  }

  lemma NamedFree(x: Mix, host: string, n: int)
    requires IndexOnly(x.qs)
    ensures FreeAt(Named(x, host, n), host)
  {
    NamedDistinct(x, host, n);
  }

  lemma SlotsFree(x: Mix)
    requires x.ws != []
    ensures FreeAt(Slots(x), x.a)
  {
    SlotsDistinct(x);
  }

  lemma JoinedFree(rs: seq<Res>, ss: seq<Res>, host: string)
    requires FreeAt(rs, host) && FreeAt(ss, host) && forall r <- rs, s <- ss :: r.Key() != s.Key()
    ensures FreeAt(rs + ss, host)
  {
    ApartDistinct(rs, ss);
  }

  lemma AllFree(x: Mix)
    requires Good(x)
    ensures OnA(x) != [] && OnB(x) != [] && FreeAt(OnA(x), x.a) && FreeAt(OnB(x), x.b)
  {
    SlotsFree(x);
    NamedFree(x, x.a, |x.ws|);
    NamedFree(x, x.b, 0);
    SlotsApart(x);
    JoinedFree(Slots(x), Named(x, x.a, |x.ws|), x.a);
  }

  /** A cluster of two nodes with free resources, the first of which is preferred. */
  ghost predicate Cluster(t: Table, site: Site, ra: seq<Res>, rb: seq<Res>, a: string, b: string) {
    && a != b && ra != [] && rb != [] && FreeAt(ra, a) && FreeAt(rb, b)
    && t == TableOf(ra + rb)
    && site == Site(Keys(ra + rb), map[a := NodeInfo(0, 0), b := NodeInfo(1, 1)], map[], {}, {})
  }

  lemma TableIs(t: Table, site: Site, ra: seq<Res>, rb: seq<Res>, a: string, b: string)
    requires Cluster(t, site, ra, rb, a, b)
    ensures SafeTable(t) && NoDuplicates(site.order) && FreePool(t, site) == t
    ensures forall r <- ra + rb :: r.Key() in t && t[r.Key()] == r && IsFree(r)
  {
    ApartDistinct(ra, rb);
    TableHolds(ra + rb);
  }

  // ----------------------------------------------------------- what is free

  lemma {:induction false} FreeOnConcat(order: seq<Key>, more: seq<Key>, pool: Table, host: string)
    ensures FreeOn(order + more, pool, host) == FreeOn(order, pool, host) + FreeOn(more, pool, host)
  {
    if order == [] {
      assert order + more == more;
    } else {
      assert (order + more)[0] == order[0] && (order + more)[1..] == order[1..] + more;
      FreeOnConcat(order[1..], more, pool, host);
    }
  }

  lemma {:induction false} FreeOnNode(rs: seq<Res>, pool: Table, name: string, host: string)
    requires forall r <- rs :: r.Key().host == name && r.Key() in pool && pool[r.Key()] == r && IsFree(r)
    ensures FreeOn(Keys(rs), pool, host) == if name == host then rs else []
  {
    if rs != [] {
      assert rs[0] in rs;
      assert Keys(rs)[1..] == Keys(rs[1..]);
      FreeOnNode(rs[1..], pool, name, host);
    }
  }

  lemma {:induction false} HostsKnown(order: seq<Key>, more: seq<Key>, site: Site, name: string)
    requires more != [] && (forall k <- more :: k.host == name) && site.unusable == {} && site.candidates == {}
    requires name !in Hosts(order, site)
    ensures Hosts(order + more, site) == Hosts(order, site) + [name]
    decreases |more|
  {
    var n := |more| - 1;
    var whole := order + more;
    assert whole[..|whole| - 1] == order + more[..n] && whole[|whole| - 1] == more[n];
    if n > 0 {
      HostsKnown(order, more[..n], site, name);
    } else {
      assert order + more[..n] == order;
    }
  }

  lemma KeysJoin(rs: seq<Res>, ss: seq<Res>)
    ensures Keys(rs + ss) == Keys(rs) + Keys(ss)
  {
  }

  lemma HostsAre(t: Table, site: Site, ra: seq<Res>, rb: seq<Res>, a: string, b: string)
    requires Cluster(t, site, ra, rb, a, b)
    ensures Hosts(site.order, site) == [a, b]
  {
    var ka, kb := Keys(ra), Keys(rb);
    KeysJoin(ra, rb);
    forall k <- ka ensures k.host == a { var i :| 0 <= i < |ka| && ka[i] == k; assert ra[i] in ra; }
    forall k <- kb ensures k.host == b { var i :| 0 <= i < |kb| && kb[i] == k; assert rb[i] in rb; }
    HostsKnown([], ka, site, a);
    assert [] + ka == ka && Hosts([], site) + [a] == [a];
    HostsKnown(ka, kb, site, b);
    assert [a] + [b] == [a, b];
  }

  lemma FreeOnTwo(ra: seq<Res>, rb: seq<Res>, t: Table, a: string, b: string)
    requires a != b && forall r <- ra + rb :: r.Key() in t && t[r.Key()] == r && IsFree(r)
    requires (forall r <- ra :: r.Key().host == a) && (forall r <- rb :: r.Key().host == b)
    ensures FreeOn(Keys(ra + rb), t, a) == ra && FreeOn(Keys(ra + rb), t, b) == rb
  {
    KeysJoin(ra, rb);
    assert forall r <- ra :: r in ra + rb;
    assert forall r <- rb :: r in ra + rb;
    FreeOnNode(ra, t, a, a);
    FreeOnNode(ra, t, a, b);
    FreeOnNode(rb, t, b, a);
    FreeOnNode(rb, t, b, b);
    FreeOnConcat(Keys(ra), Keys(rb), t, a);
    FreeOnConcat(Keys(ra), Keys(rb), t, b);
  }

  lemma FreeIs(t: Table, site: Site, ra: seq<Res>, rb: seq<Res>, a: string, b: string)
    requires Cluster(t, site, ra, rb, a, b)
    ensures AvailOn(site.order, t, Hosts(site.order, site)) == [NodeAvail(a, ra), NodeAvail(b, rb)]
  {
    HostsAre(t, site, ra, rb, a, b);
    TableIs(t, site, ra, rb, a, b);
    FreeOnTwo(ra, rb, t, a, b);
    TwoNodesAvail(site.order, t, a, b);
  }

  lemma TwoNodesAvail(order: seq<Key>, t: Table, a: string, b: string)
    ensures AvailOn(order, t, [a, b]) == [NodeAvail(a, FreeOn(order, t, a)), NodeAvail(b, FreeOn(order, t, b))]
  {
  }

  lemma {:induction false} SortedAlready(rs: seq<Res>)
    requires Ascending(rs)
    ensures SortRes(rs) == rs
  {
    if rs != [] {
      assert Ascending(rs[1..]);
      SortedAlready(rs[1..]);
      assert rs == [rs[0]] + rs[1..];
      assert |rs| > 1 ==> Weight(rs[0]) <= Weight(rs[1]);
    }
  }

  lemma NodesSorted(site: Site, ra: seq<Res>, rb: seq<Res>, a: string, b: string)
    requires a != b && site.nodes == map[a := NodeInfo(0, 0), b := NodeInfo(1, 1)] && Ascending(ra) && Ascending(rb)
    ensures SortAvail(site, [NodeAvail(a, ra), NodeAvail(b, rb)]) == [NodeAvail(a, ra), NodeAvail(b, rb)]
  {
    SortedAlready(ra);
    SortedAlready(rb);
    LookAhead.SortNodePair(site, NodeAvail(a, ra), NodeAvail(b, rb));
  }
}
