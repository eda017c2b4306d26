/** A plan that succeeds can be committed. Planning takes fixed requests first and
    then works group by group on copies; the commit replays the picks on the real
    table in request order. The orders differ, and the replay still never fails. */
module PlanCommits {
  import opened Resources
  import opened Ledger
  import opened Matchers
  import opened MatchingSteps
  import opened Planner

  // ---------------------------------------------------------- permutations

  lemma {:induction false} GrantsCount(qs: seq<Req>, g: Grant)
    ensures multiset(GrantsOf(qs))[g] == if Keyed(g.req) && KeyOf(g.req) == g.key then multiset(qs)[g.req] else 0
  {
    if qs != [] {
      assert qs == [qs[0]] + qs[1..];
      GrantsCount(qs[1..], g);
    }
  }

  lemma GrantsPermute(ps: seq<Req>, qs: seq<Req>)
    requires multiset(ps) == multiset(qs)
    ensures multiset(GrantsOf(ps)) == multiset(GrantsOf(qs))
  {
    forall g: Grant
      ensures multiset(GrantsOf(ps))[g] == multiset(GrantsOf(qs))[g]
    {
      GrantsCount(ps, g);
      GrantsCount(qs, g);
    }
  }

  lemma GrantMember(qs: seq<Req>, q: Req)
    requires q in qs && Keyed(q)
    ensures Grant(KeyOf(q), q) in GrantsOf(qs)
  {
    GrantsCount(qs, Grant(KeyOf(q), q));
    assert q in multiset(qs);
  }

  lemma SplicePermutes<T>(a: seq<T>, m: seq<T>, m': seq<T>, b: seq<T>, p: seq<T>)
    requires multiset(m') == multiset(m + p)
    ensures multiset(a + (m' + b)) == multiset((a + (m + b)) + p)
  {
    assert multiset(a + (m' + b)) == multiset(a) + (multiset(m') + multiset(b));
    assert multiset((a + (m + b)) + p) == (multiset(a) + (multiset(m) + multiset(b))) + multiset(p);
    assert multiset(m + p) == multiset(m) + multiset(p);
  }

  // ------------------------------------------------------------ filling in

  lemma {:induction false} FillGrants(reqs: seq<Req>, picks: seq<Req>)
    requires |picks| == |FreeOf(reqs)|
    ensures |Fill(reqs, picks)| == |reqs|
    ensures multiset(GrantsOf(Fill(reqs, picks))) == multiset(GrantsOf(FixedOf(reqs)) + GrantsOf(picks))
    decreases |reqs|
  {
    if reqs == [] {
    } else if DOF(reqs[0]) == 0 {
      FillGrants(reqs[1..], picks);
      var q, fs, ps := reqs[0], GrantsOf(FixedOf(reqs[1..])), GrantsOf(picks);
      var all := GrantsOf(Fill(reqs[1..], picks));
      assert FixedOf(reqs) == [q] + FixedOf(reqs[1..]) && FreeOf(reqs) == FreeOf(reqs[1..]);
      GrantsOfAppend([q], FixedOf(reqs[1..]));
      GrantsOfAppend([q], Fill(reqs[1..], picks));
      InsertPermutes(GrantsOf([q]), all, fs, ps);
    } else {
      var q, later := picks[0], picks[1..];
      assert FreeOf(reqs) == [reqs[0]] + FreeOf(reqs[1..]) && FixedOf(reqs) == FixedOf(reqs[1..]);
      FillGrants(reqs[1..], later);
      var fs, ps, all := GrantsOf(FixedOf(reqs)), GrantsOf(later), GrantsOf(Fill(reqs[1..], later));
      assert picks == [q] + later;
      GrantsOfAppend([q], later);
      GrantsOfAppend([q], Fill(reqs[1..], later));
      InsertPermutes(GrantsOf([q]), all, fs, ps);
    }
  }

  /** m is q, or q moved to a host it allows. */
  ghost predicate MovedTo(q: Req, m: Req) {
    m == q || exists h :: m == OnHost(q, h) && (q.host.None? || q.host == Some(h))
  }

  /** p serves q on a node: as FillsIn, for a request moved to that node. */
  lemma {:induction false} FillFillsIn(reqs: seq<Req>, moved: seq<Req>, picks: seq<Req>)
    requires |moved| == |FreeOf(reqs)| && AllFillIn(moved, picks)
    requires forall i | 0 <= i < |moved| :: MovedTo(FreeOf(reqs)[i], moved[i])
    requires forall q <- picks :: Keyed(q)
    ensures AllFillIn(reqs, Fill(reqs, picks))
    ensures forall x <- Fill(reqs, picks) :: x in picks || (x in reqs && DOF(x) == 0)
    decreases |reqs|
  {
    if reqs == [] {
    } else if DOF(reqs[0]) == 0 {
      assert FreeOf(reqs) == FreeOf(reqs[1..]);
      FillFillsIn(reqs[1..], moved, picks);
    } else {
      assert FreeOf(reqs) == [reqs[0]] + FreeOf(reqs[1..]);
      assert FreeOf(reqs)[1..] == FreeOf(reqs[1..]);
      FillFillsIn(reqs[1..], moved[1..], picks[1..]);
      assert picks[0] in picks;
      assert FillsIn(moved[0], picks[0]);
      assert FillsIn(reqs[0], picks[0]);
    }
  }

  // ------------------------------------------------------------ availability

  ghost predicate OnNode(a: NodeAvail) { forall r <- a.res :: r.Key().host == a.name }

  ghost predicate NamesDistinct(avail: seq<NodeAvail>) {
    forall i, j | 0 <= i < j < |avail| :: avail[i].name != avail[j].name
  }

  /** The lists hold, node by node, free resources in the state of the table. */
  ghost predicate AvailOk(avail: seq<NodeAvail>, t: Table) {
    NamesDistinct(avail) && forall a <- avail :: Backed(a.res, t) && OnNode(a)
  }

  ghost function HostKeys(t: Table, name: string): set<Key> { set k | k in t && k.host == name }

  lemma {:induction false} NothingOn(gs: seq<Grant>, k: Key)
    requires forall g <- gs :: g.key != k
    ensures On(gs, k) == []
  {
    if gs != [] {
      assert gs[0] in gs;
      assert forall g <- gs[1..] :: g in gs;
      NothingOn(gs[1..], k);
    }
  }

  lemma UntouchedStayBacked(rs: seq<Res>, t: Table, picks: seq<Grant>, name: string, uid: nat)
    requires Backed(rs, t) && CommitAll(t, picks, uid).Some?
    requires forall g <- picks :: g.key.host == name
    requires forall r <- rs :: r.Key().host != name
    ensures Backed(rs, CommitAll(t, picks, uid).value)
  {
    CommitByKey(t, picks, uid);
    forall r <- rs
      ensures CommitAll(t, picks, uid).value[r.Key()] == r
    {
      NothingOn(picks, r.Key());
    }
  }

  /** Taking picks from one node keeps all availability in step with the table. */
  lemma ServedKeepsAvail(avail: seq<NodeAvail>, n: nat, picks: seq<Grant>, rest: seq<Res>, t: Table, uid: nat)
    requires AvailOk(avail, t) && n < |avail|
    requires Took(avail[n].res, picks, rest, HostKeys(t, avail[n].name), t, uid)
    ensures AvailOk(avail[n := avail[n].(res := rest)], CommitAll(t, picks, uid).value)
    ensures forall g <- picks :: g.key.host == avail[n].name
  {
    var name, t' := avail[n].name, CommitAll(t, picks, uid).value;
    assert avail[n] in avail;
    assert Within(avail[n].res, HostKeys(t, name));
    var avail' := avail[n := avail[n].(res := rest)];
    forall a <- avail'
      ensures Backed(a.res, t') && OnNode(a)
    {
      var i :| 0 <= i < |avail'| && avail'[i] == a;
      if i != n {
        assert a == avail[i] && a in avail;
        UntouchedStayBacked(a.res, t, picks, name, uid);
      }
    }
  }

  lemma {:induction false} InsertResMembers(r: Res, rs: seq<Res>)
    ensures forall x :: x in InsertRes(r, rs) <==> x == r || x in rs
    ensures Distinct(rs) && (forall x <- rs :: x.Key() != r.Key()) ==> Distinct(InsertRes(r, rs))
  {
    if rs != [] && Weight(r) > Weight(rs[0]) {
      InsertResMembers(r, rs[1..]);
      assert rs == [rs[0]] + rs[1..];
      if Distinct(rs) && forall x <- rs :: x.Key() != r.Key() {
        assert Distinct(rs[1..]);
        assert forall x <- InsertRes(r, rs[1..]) :: x.Key() != rs[0].Key();
      }
    }
  }

  lemma {:induction false} SortResMembers(rs: seq<Res>)
    ensures forall x :: x in SortRes(rs) <==> x in rs
    ensures Distinct(rs) ==> Distinct(SortRes(rs))
  {
    if rs != [] {
      SortResMembers(rs[1..]);
      InsertResMembers(rs[0], SortRes(rs[1..]));
      assert rs == [rs[0]] + rs[1..];
    }
  }

  lemma {:induction false} InsertNodeMembers(site: Site, a: NodeAvail, avail: seq<NodeAvail>)
    ensures |InsertNode(site, a, avail)| == |avail| + 1
    ensures forall x :: x in InsertNode(site, a, avail) <==> x == a || x in avail
    ensures NamesDistinct(avail) && (forall x <- avail :: x.name != a.name) ==> NamesDistinct(InsertNode(site, a, avail))
  {
    if avail != [] && !NodeLeq(site, a, avail[0]) {
      InsertNodeMembers(site, a, avail[1..]);
      assert avail == [avail[0]] + avail[1..];
      if NamesDistinct(avail) && forall x <- avail :: x.name != a.name {
        assert NamesDistinct(avail[1..]);
        assert forall x <- InsertNode(site, a, avail[1..]) :: x.name != avail[0].name;
      }
    }
  }

  lemma {:induction false} SortAvailOk(site: Site, avail: seq<NodeAvail>, t: Table)
    requires AvailOk(avail, t)
    ensures AvailOk(SortAvail(site, avail), t)
    ensures forall a <- SortAvail(site, avail) :: exists b <- avail :: b.name == a.name
  {
    if avail != [] {
      var a, rest := avail[0], avail[1..];
      assert avail == [a] + rest;
      assert forall i | 0 <= i < |rest| :: rest[i] == avail[i + 1];
      SortAvailOk(site, rest, t);
      SortResMembers(a.res);
      var a' := a.(res := SortRes(a.res));
      assert Backed(a'.res, t) && OnNode(a');
      forall x <- SortAvail(site, rest)
        ensures x.name != a'.name
      {
        var b :| b in rest && b.name == x.name;
      }
      InsertNodeMembers(site, a', SortAvail(site, rest));
    }
  }

  lemma {:induction false} DropEmptyMembers(avail: seq<NodeAvail>)
    ensures forall a <- DropEmpty(avail) :: a in avail && a.res != []
  {
    if avail != [] {
      DropEmptyMembers(avail[1..]);
      assert avail == [avail[0]] + avail[1..];
    }
  }

  lemma {:induction false} DropEmptyOk(avail: seq<NodeAvail>, t: Table)
    requires AvailOk(avail, t)
    ensures AvailOk(DropEmpty(avail), t)
  {
    if avail != [] {
      var rest := avail[1..];
      assert avail == [avail[0]] + rest;
      assert forall i | 0 <= i < |rest| :: rest[i] == avail[i + 1];
      DropEmptyOk(rest, t);
      DropEmptyMembers(rest);
    }
  }
}
