/** What the checks before planning let through, and what planning then has to work
    with. */
module Checks {
  import opened Resources
  import opened Ledger
  import opened Matchers
  import opened MatchingSteps
  import opened Planner
  import opened PlanCommits
  import opened PlanTheorem
  import opened PlanSound
  import opened Suits

  // --------------------------------------------------------- one request

  /** The node is up, and among those the caller names if he names any. */
  predicate Usable(site: Site, host: string) { host !in site.unusable && (site.candidates != {} ==> host in site.candidates) }

  /** A fixed request passes exactly if the resource it names exists, is on a usable node,
      suits it, and has room for it. */
  lemma FixedPassesExactly(t: Table, site: Site, q: Req)
    requires SafeTable(t) && Keyed(q)
    ensures CheckFixed(t, site, q).None? <==>
              KeyOf(q) in t && Usable(site, KeyOf(q).host) && SuitsReq(t[KeyOf(q)].attrs, q) && HasRoom(t[KeyOf(q)], q)
    ensures CheckFixed(t, site, q).None? <==>
              KeyOf(q) in t && Eligible(site, KeyOf(q)) && CanAllocate(t[KeyOf(q)], q)
  {
    if KeyOf(q) in t {
      AllocateMeans(t[KeyOf(q)], q);
      MatchMeans(t[KeyOf(q)].attrs, q);
    }
  }

  /** No slot is left, whoever asks. */
  predicate UsedUp(r: Res) { if r.shared then |r.owners| == r.attrs.limit else r.owners != [] }

  /** Why a fixed request is refused: the resource does not exist; its node is down; it is
      used up; it does not suit; its node is not among those named; or the one wants it
      to himself while others share it. */
  lemma FixedRefusalMeans(t: Table, site: Site, q: Req)
    requires SafeTable(t)
    ensures !Keyed(q) || KeyOf(q) !in t ==> CheckFixed(t, site, q) == Some(UnknownResource)
    ensures Keyed(q) && KeyOf(q) in t ==>
              var r, h := t[KeyOf(q)], KeyOf(q).host;
              CheckFixed(t, site, q) ==
                if h in site.unusable then Some(Unavailable)
                else if UsedUp(r) then Some(Busy)
                else if !SuitsReq(r.attrs, q) then Some(UserError)
                else if !Usable(site, h) then Some(Unavailable)
                else if HasRoom(r, q) then None else Some(Busy)
  {
    if Keyed(q) && KeyOf(q) in t { MatchMeans(t[KeyOf(q)].attrs, q); }
  }

  // --------------------------------------------------------- all of them

  /** The first request that names this resource. */
  ghost predicate FirstNaming(fixed: seq<Req>, i: nat) {
    i < |fixed| && forall j | 0 <= j < i :: !SameTarget(fixed[j], fixed[i])
  }

  /** Of the requests that name one resource the first is checked. The complaint is the
      first there is, and there is none exactly if all that are checked pass. */
  lemma {:induction false} CheckedInOrder(t: Table, site: Site, fixed: seq<Req>, n: nat)
    requires n <= |fixed|
    ensures CheckAllFixed(t, site, fixed, n).None? <==>
              forall i | n <= i < |fixed| && FirstNaming(fixed, i) :: CheckFixed(t, site, fixed[i]).None?
    ensures CheckAllFixed(t, site, fixed, n).Some? ==>
              exists i | n <= i < |fixed| && FirstNaming(fixed, i) ::
                && CheckFixed(t, site, fixed[i]) == CheckAllFixed(t, site, fixed, n)
                && forall j | n <= j < i && FirstNaming(fixed, j) :: CheckFixed(t, site, fixed[j]).None?
    decreases |fixed| - n
  {
    if n < |fixed| {
      CheckedInOrder(t, site, fixed, n + 1);
      if FirstNaming(fixed, n) && CheckFixed(t, site, fixed[n]).Some? { assert FirstNaming(fixed, n); }
    }
  }

  /** All that name hosts name one. */
  ghost predicate NoTwoHosts(reqs: seq<Req>) {
    forall p <- reqs, q <- reqs :: p.host.Some? && q.host.Some? ==> p.host == q.host
  }

  lemma {:induction false} FirstHostIn(reqs: seq<Req>)
    ensures FirstHost(reqs).Some? ==> exists q <- reqs :: q.host == FirstHost(reqs)
    ensures FirstHost(reqs).None? ==> forall q <- reqs :: q.host.None?
  {
    if reqs != [] {
      FirstHostIn(reqs[1..]);
      assert reqs == [reqs[0]] + reqs[1..];
      assert reqs[0] in reqs;
    }
  }

  lemma WellHostedMeans(reqs: seq<Req>)
    ensures WellHosted(reqs) <==> NoTwoHosts(reqs) || forall q <- reqs :: q.idx.Some? && q.host.Some?
  {
    FirstHostIn(reqs);
  }

  /** A list that names one host is meant to be there as a whole; any other stays. */
  lemma PasteMeans(reqs: seq<Req>)
    ensures var p := Paste(reqs);
            && |p| == |reqs|
            && (!NoTwoHosts(reqs) ==> p == reqs)
            && (forall i, q | 0 <= i < |reqs| && q in reqs && NoTwoHosts(reqs) && q.host.Some? :: p[i] == reqs[i].(host := q.host))
            && ((forall q <- reqs :: q.host.None?) ==> p == reqs)
  {
    FirstHostIn(reqs);
  }

  lemma {:induction false} FixedMeans(groups: seq<Group>)
    ensures forall q :: q in FixedAll(groups) <==> exists i | 0 <= i < |groups| :: groups[i].Reqs? && q in groups[i].reqs && q.idx.Some? && q.host.Some?
  {
    if groups != [] {
      FixedMeans(groups[1..]);
      FixedOfMembers(GroupReqs(groups[0]));
      forall q
        ensures q in FixedAll(groups) <==> exists i | 0 <= i < |groups| :: groups[i].Reqs? && q in groups[i].reqs && q.idx.Some? && q.host.Some?
      {
        if i :| 0 <= i < |groups| && groups[i].Reqs? && q in groups[i].reqs && q.idx.Some? && q.host.Some? {
          if i > 0 { assert groups[1..][i - 1] == groups[i]; }
        }
      }
    }
  }

  lemma {:induction false} FixedOfMembers(reqs: seq<Req>)
    ensures forall q :: q in FixedOf(reqs) <==> q in reqs && q.idx.Some? && q.host.Some?
  {
    if reqs != [] {
      FixedOfMembers(reqs[1..]);
      assert reqs == [reqs[0]] + reqs[1..];
    }
  }

  /** Two fixed requests name one resource, and not both to share it. */
  ghost predicate Clashing(p: Req, q: Req) {
    (p.cls, p.idx, p.host) == (q.cls, q.idx, q.host) && (!p.shared || !q.shared)
  }

  ghost predicate Malformed(groups: seq<Group>) {
    exists g <- groups :: g.Reqs? && !NoTwoHosts(g.reqs) && !(forall q <- g.reqs :: q.idx.Some? && q.host.Some?)
  }

  /** A request is malformed if a list that leaves something open names two hosts, or two
      fixed requests clash; otherwise the fixed requests are checked one by one. */
  lemma ValidateMeans(t: Table, site: Site, groups: seq<Group>)
    ensures var fixed := FixedAll(PasteAll(groups));
            Validate(t, site, groups) ==
              if Malformed(groups) || exists i, j | 0 <= i < j < |fixed| :: Clashing(fixed[i], fixed[j]) then Some(BadRequest)
              else CheckAllFixed(t, site, fixed, 0)
  {
    var fixed := FixedAll(PasteAll(groups));
    forall g <- groups | g.Reqs? ensures WellHosted(g.reqs) <==> NoTwoHosts(g.reqs) || forall q <- g.reqs :: q.idx.Some? && q.host.Some? {
      WellHostedMeans(g.reqs);
    }
    assert NoClash(fixed) <==> !exists i, j | 0 <= i < j < |fixed| :: Clashing(fixed[i], fixed[j]) by {
      if i, j :| 0 <= i < j < |fixed| && Clashing(fixed[i], fixed[j]) { assert SameTarget(fixed[i], fixed[j]); }
    }
  }

  // ------------------------------------------------------ taking the fixed

  lemma GrantsOn(qs: seq<Req>, k: Key)
    requires forall q <- qs :: Keyed(q)
    ensures On(GrantsOf(qs), k) != [] ==> exists i | 0 <= i < |qs| :: KeyOf(qs[i]) == k
  {
    if On(GrantsOf(qs), k) != [] {
      OnFrom(GrantsOf(qs), k);
      var g :| g in GrantsOf(qs) && g.key == k;
      GrantFrom(qs, g);
      var q :| q in qs && KeyOf(q) == k;
    }
  }

  lemma {:induction false} OnFrom(gs: seq<Grant>, k: Key)
    requires On(gs, k) != []
    ensures exists g <- gs :: g.key == k
  {
    if gs[0].key != k { OnFrom(gs[1..], k); }
  }

  lemma {:induction false} GrantFrom(qs: seq<Req>, g: Grant)
    requires (forall q <- qs :: Keyed(q)) && g in GrantsOf(qs)
    ensures exists q <- qs :: KeyOf(q) == g.key && q == g.req
  {
    assert qs == [qs[0]] + qs[1..];
    assert qs[0] in qs;
    if g != Grant(KeyOf(qs[0]), qs[0]) { GrantFrom(qs[1..], g); }
  }

  lemma {:induction false} FirstNamingOf(fixed: seq<Req>, i: nat) returns (j: nat)
    requires i < |fixed|
    ensures j <= i && FirstNaming(fixed, j) && SameTarget(fixed[j], fixed[i])
  {
    j := i;
    if !FirstNaming(fixed, i) {
      var b :| 0 <= b < i && SameTarget(fixed[b], fixed[i]);
      j := FirstNamingOf(fixed, b);
    }
  }

  /** What is named by requests that passed is free and on a usable node. */
  lemma NamedIsInPool(t: Table, site: Site, fixed: seq<Req>, i: nat)
    requires SafeTable(t) && i < |fixed| && CheckAllFixed(t, site, fixed, 0).None? && forall q <- fixed :: Keyed(q)
    ensures KeyOf(fixed[i]) in FreePool(t, site)
  {
    var j := FirstNamingOf(fixed, i);
    assert fixed[i] in fixed && fixed[j] in fixed;
    CheckedInOrder(t, site, fixed, 0);
    assert CheckFixed(t, site, fixed[j]).None?;
    FixedPassesExactly(t, site, fixed[j]);
  }

  lemma {:induction false} FixedAreKeyed(t: Table, site: Site, fixed: seq<Req>)
    requires CheckAllFixed(t, site, fixed, 0).None?
    ensures forall q <- fixed :: Keyed(q)
  {
    forall q <- fixed
      ensures Keyed(q)
    {
      var i :| 0 <= i < |fixed| && fixed[i] == q;
      CheckedIsKeyed(t, site, fixed, i);
    }
  }

  /** Every resource can serve the fixed requests that name it. */
  ghost predicate FixedFit(t: Table, fixed: seq<Req>) { forall k <- t :: Fits(t[k], On(GrantsOf(fixed), k)) }

  lemma FitsInPool(t: Table, site: Site, fixed: seq<Req>, uid: nat)
    requires SafeTable(t) && CheckAllFixed(t, site, fixed, 0).None?
    ensures CommitAll(FreePool(t, site), GrantsOf(fixed), uid).Some? <==> FixedFit(t, fixed)
  {
    var pool, gs := FreePool(t, site), GrantsOf(fixed);
    FixedAreKeyed(t, site, fixed);
    CommitByKey(pool, gs, uid);
    forall g <- gs
      ensures g.key in pool
    {
      GrantFrom(fixed, g);
      var q :| q in fixed && KeyOf(q) == g.key;
      var i :| 0 <= i < |fixed| && fixed[i] == q;
      NamedIsInPool(t, site, fixed, i);
    }
    forall k <- t
      ensures if k in pool then Replay(pool[k], On(gs, k), uid).Some? <==> Fits(t[k], On(gs, k)) else Fits(t[k], On(gs, k))
    {
      ReplayIffFits(t[k], On(gs, k), uid);
      if k !in pool && On(gs, k) != [] {
        GrantsOn(fixed, k);
        var i :| 0 <= i < |fixed| && KeyOf(fixed[i]) == k;
        NamedIsInPool(t, site, fixed, i);
      }
    }
  }

  /** After the checks, planning starts exactly if every resource can serve all the fixed
      requests that name it; else it fails where it takes them. */
  lemma FixedTakenExactly(t: Table, site: Site, groups: seq<Group>, uid: nat)
    requires SafeTable(t) && Validate(t, site, groups).None?
    ensures var pasted := PasteAll(groups);
            && (Start(t, site, pasted, uid).Done? <==> FixedFit(t, FixedAll(pasted)))
            && (Start(t, site, pasted, uid).Raised? ==> Start(t, site, pasted, uid).error == CommitFailed)
  {
    var pasted := PasteAll(groups);
    var pool := FreePool(t, site);
    FixedPermutes(pasted);
    GrantsPermute(FixedByDOF(pasted), FixedAll(pasted));
    CommitOrderIrrelevant(pool, GrantsOf(FixedByDOF(pasted)), GrantsOf(FixedAll(pasted)), uid);
    FitsInPool(t, site, FixedAll(pasted), uid);
  }

  // ---------------------------------------------------------- what is free

  /** Some node lists this resource. */
  ghost predicate Has(avail: seq<NodeAvail>, r: Res) { exists a <- avail :: r in a.res }

  ghost predicate AllOnNode(avail: seq<NodeAvail>) { forall a <- avail :: OnNode(a) }

  lemma {:induction false} FreeOnMembers(order: seq<Key>, pool: Table, host: string)
    ensures forall r :: r in FreeOn(order, pool, host) <==> exists k <- order :: k.host == host && k in pool && IsFree(pool[k]) && r == pool[k]
  {
    if order != [] {
      FreeOnMembers(order[1..], pool, host);
      assert order == [order[0]] + order[1..];
      forall r
        ensures r in FreeOn(order, pool, host) <==> exists k <- order :: k.host == host && k in pool && IsFree(pool[k]) && r == pool[k]
      {
        var k := order[0];
        assert k in order;
        if k.host == host && k in pool && IsFree(pool[k]) { assert r in FreeOn(order, pool, host) <==> r == pool[k] || r in FreeOn(order[1..], pool, host); }
      }
    }
  }

  lemma {:induction false} HostsMembers(order: seq<Key>, site: Site)
    ensures forall h :: h in Hosts(order, site) <==> exists k <- order :: Eligible(site, k) && k.host == h
  {
    if order != [] {
      var n := |order| - 1;
      HostsMembers(order[..n], site);
      assert order == order[..n] + [order[n]];
      assert order[n] in order;
    }
  }

  /** The lists planning starts with have exactly what is free on usable nodes, each
      resource on its own node. */
  lemma ListedExactly(order: seq<Key>, site: Site, pool: Table)
    requires SafeTable(pool)
    ensures var avail := AvailOn(order, pool, Hosts(order, site));
            && AllOnNode(avail)
            && forall r :: Has(avail, r) <==> exists k <- order :: Eligible(site, k) && k in pool && IsFree(pool[k]) && r == pool[k]
  {
    var hosts := Hosts(order, site);
    var avail := AvailOn(order, pool, hosts);
    HostsMembers(order, site);
    forall i | 0 <= i < |avail|
      ensures OnNode(avail[i])
    {
      FreeOnMembers(order, pool, hosts[i]);
    }
    forall r
      ensures Has(avail, r) <==> exists k <- order :: Eligible(site, k) && k in pool && IsFree(pool[k]) && r == pool[k]
    {
      ListedOne(order, site, pool, r);
    }
  }

  lemma ListedOne(order: seq<Key>, site: Site, pool: Table, r: Res)
    requires SafeTable(pool)
    ensures Has(AvailOn(order, pool, Hosts(order, site)), r) <==> exists k <- order :: Eligible(site, k) && k in pool && IsFree(pool[k]) && r == pool[k]
  {
    var hosts := Hosts(order, site);
    var avail := AvailOn(order, pool, hosts);
    HostsMembers(order, site);
    if Has(avail, r) {
      var a :| a in avail && r in a.res;
      var i :| 0 <= i < |avail| && avail[i] == a;
      FreeOnMembers(order, pool, hosts[i]);
      var k :| k in order && k.host == hosts[i] && k in pool && IsFree(pool[k]) && r == pool[k];
      assert hosts[i] in hosts;
      assert Eligible(site, k);
    }
    if k :| k in order && Eligible(site, k) && k in pool && IsFree(pool[k]) && r == pool[k] {
      assert k.host in hosts;
      var i :| 0 <= i < |hosts| && hosts[i] == k.host;
      FreeOnMembers(order, pool, hosts[i]);
      assert r in avail[i].res && avail[i] in avail;
    }
  }

  lemma {:induction false} SortedHas(site: Site, avail: seq<NodeAvail>)
    ensures forall r :: Has(SortAvail(site, avail), r) <==> Has(avail, r)
    ensures AllOnNode(avail) ==> AllOnNode(SortAvail(site, avail))
  {
    if avail != [] {
      var a, rest := avail[0], avail[1..];
      var a' := a.(res := SortRes(a.res));
      SortedHas(site, rest);
      SortResMembers(a.res);
      InsertNodeMembers(site, a', SortAvail(site, rest));
      assert avail == [a] + rest;
      if AllOnNode(avail) {
        assert a in avail && forall b <- rest :: b in avail;
        assert AllOnNode(rest) && OnNode(a');
      }
      forall r
        ensures Has(SortAvail(site, avail), r) <==> Has(avail, r)
      {
        HasCons(a, rest, r);
        assert Has(SortAvail(site, avail), r) <==> r in a'.res || Has(SortAvail(site, rest), r);
      }
    }
  }

  lemma HasCons(a: NodeAvail, rest: seq<NodeAvail>, r: Res)
    ensures Has([a] + rest, r) <==> r in a.res || Has(rest, r)
  {
    if Has(rest, r) { var b :| b in rest && r in b.res; assert b in [a] + rest; }
    if r in a.res { assert a in [a] + rest; }
  }

  /** Nodes with nothing left are left out, the others stay in order. */
  lemma {:induction false} DroppedHas(avail: seq<NodeAvail>)
    ensures forall r :: Has(DropEmpty(avail), r) <==> Has(avail, r)
    ensures AllOnNode(avail) ==> AllOnNode(DropEmpty(avail))
    ensures forall a <- DropEmpty(avail) :: a.res != []
    ensures forall a: NodeAvail :: a.res != [] ==> multiset(DropEmpty(avail))[a] == multiset(avail)[a]
  {
    if avail != [] {
      var a, rest := avail[0], avail[1..];
      DroppedHas(rest);
      assert avail == [a] + rest;
      forall r
        ensures Has(DropEmpty(avail), r) <==> Has(avail, r)
      {
        HasCons(a, rest, r);
        HasCons(a, DropEmpty(rest), r);
      }
    }
  }
}
