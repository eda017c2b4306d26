/** The two sorts of the allocator: resources by weight, and nodes by their own
    weight, the weight of what they have free, and their index. */
module Sorting {
  import opened Resources
  import opened Planner

  ghost predicate Ascending(rs: seq<Res>) { forall i, j | 0 <= i < j < |rs| :: Weight(rs[i]) <= Weight(rs[j]) }

  function OfWeight(rs: seq<Res>, w: int): seq<Res> {
    if rs == [] then [] else (if Weight(rs[0]) == w then [rs[0]] else []) + OfWeight(rs[1..], w)
  }

  lemma {:induction false} InsertResAscending(r: Res, rs: seq<Res>)
    requires Ascending(rs)
    ensures Ascending(InsertRes(r, rs))
    ensures |InsertRes(r, rs)| > 0 && (InsertRes(r, rs)[0] == r || (rs != [] && InsertRes(r, rs)[0] == rs[0]))
  {
    if rs != [] && Weight(r) > Weight(rs[0]) {
      var rest := InsertRes(r, rs[1..]);
      InsertResAscending(r, rs[1..]);
      assert InsertRes(r, rs) == [rs[0]] + rest;
      assert forall j | 0 <= j < |rest| :: Weight(rest[0]) <= Weight(rest[j]);
    }
  }

  lemma {:induction false} InsertResStable(r: Res, rs: seq<Res>, w: int)
    ensures OfWeight(InsertRes(r, rs), w) == (if Weight(r) == w then [r] else []) + OfWeight(rs, w)
  {
    if rs == [] || Weight(r) <= Weight(rs[0]) {
      assert ([r] + rs)[1..] == rs;
    } else {
      var rest := InsertRes(r, rs[1..]);
      assert ([rs[0]] + rest)[1..] == rest;
      InsertResStable(r, rs[1..], w);
      if Weight(rs[0]) == w {
        assert OfWeight(rest, w) == [] + OfWeight(rs[1..], w) == OfWeight(rs[1..], w);
      } else {
        assert OfWeight(InsertRes(r, rs), w) == [] + OfWeight(rest, w) == OfWeight(rest, w);
        assert OfWeight(rs, w) == [] + OfWeight(rs[1..], w) == OfWeight(rs[1..], w);
      }
    }
  }

  /** The sort puts lighter resources first and keeps those of one weight in order. */
  lemma {:induction false} SortResSorts(rs: seq<Res>, w: int)
    ensures Ascending(SortRes(rs)) && OfWeight(SortRes(rs), w) == OfWeight(rs, w)
  {
    if rs != [] {
      SortResSorts(rs[1..], w);
      InsertResAscending(rs[0], SortRes(rs[1..]));
      InsertResStable(rs[0], SortRes(rs[1..]), w);
    }
  }

  lemma {:induction false} InsertResWeight(r: Res, rs: seq<Res>)
    ensures TotalWeight(InsertRes(r, rs)) == Weight(r) + TotalWeight(rs)
  {
    if rs == [] || Weight(r) <= Weight(rs[0]) {
      assert ([r] + rs)[1..] == rs;
    } else {
      var rest := InsertRes(r, rs[1..]);
      assert ([rs[0]] + rest)[1..] == rest;
      InsertResWeight(r, rs[1..]);
    }
  }

  lemma {:induction false} SortResWeight(rs: seq<Res>)
    ensures TotalWeight(SortRes(rs)) == TotalWeight(rs)
  {
    if rs != [] {
      SortResWeight(rs[1..]);
      InsertResWeight(rs[0], SortRes(rs[1..]));
    }
  }

  ghost predicate NodesAscending(site: Site, avail: seq<NodeAvail>) {
    forall i, j | 0 <= i < j < |avail| :: NodeLeq(site, avail[i], avail[j])
  }

  /** Lexicographic order of nodes: own weight, weight of what is free, index. A node
      that is not declared weighs nothing and comes first. */
  ghost predicate InOrder(site: Site, a: NodeAvail, b: NodeAvail) {
    var biasA, biasB := if a.name in site.nodes then site.nodes[a.name].bias else 0, if b.name in site.nodes then site.nodes[b.name].bias else 0;
    var idxA, idxB := if a.name in site.nodes then site.nodes[a.name].idx else 0, if b.name in site.nodes then site.nodes[b.name].idx else 0;
    && biasA <= biasB
    && (biasA == biasB ==> TotalWeight(a.res) <= TotalWeight(b.res))
    && (biasA == biasB && TotalWeight(a.res) == TotalWeight(b.res) ==> idxA <= idxB)
  }

  lemma OrderMeans(site: Site, a: NodeAvail, b: NodeAvail)
    ensures NodeLeq(site, a, b) <==> InOrder(site, a, b)
  {
  }

  lemma NodeOrder(site: Site, a: NodeAvail, b: NodeAvail, c: NodeAvail)
    ensures NodeLeq(site, a, b) || NodeLeq(site, b, a)
    ensures NodeLeq(site, a, b) && NodeLeq(site, b, c) ==> NodeLeq(site, a, c)
  {
  }

  lemma LightestFirst(site: Site, a: NodeAvail, rest: seq<NodeAvail>)
    requires NodesAscending(site, rest) && rest != [] && NodeLeq(site, a, rest[0])
    ensures NodesAscending(site, [a] + rest)
  {
    var r := [a] + rest;
    forall i, j | 0 <= i < j < |r|
      ensures NodeLeq(site, r[i], r[j])
    {
      NodeOrder(site, a, rest[0], r[j]);
      assert i > 0 ==> r[i] == rest[i - 1];
      assert r[j] == rest[j - 1];
    }
  }

  lemma {:induction false} InsertNodeAscending(site: Site, a: NodeAvail, avail: seq<NodeAvail>)
    requires NodesAscending(site, avail)
    ensures var r := InsertNode(site, a, avail); r != [] && NodesAscending(site, r) && (r[0] == a || (avail != [] && r[0] == avail[0]))
  {
    if avail == [] {
    } else if NodeLeq(site, a, avail[0]) {
      LightestFirst(site, a, avail);
    } else {
      InsertNodeAscending(site, a, avail[1..]);
      NodeOrder(site, avail[0], a, a);
      LightestFirst(site, avail[0], InsertNode(site, a, avail[1..]));
    }
  }

  lemma {:induction false} InsertNodePermutes(site: Site, a: NodeAvail, avail: seq<NodeAvail>)
    ensures multiset(InsertNode(site, a, avail)) == multiset{a} + multiset(avail)
  {
    if avail != [] && !NodeLeq(site, a, avail[0]) {
      InsertNodePermutes(site, a, avail[1..]);
      assert avail == [avail[0]] + avail[1..];
    }
  }

  /** Each node's resources sorted, nothing else changed. */
  function EachSorted(avail: seq<NodeAvail>): seq<NodeAvail> {
    seq(|avail|, i requires 0 <= i < |avail| => avail[i].(res := SortRes(avail[i].res)))
  }

  /** The sort puts lighter nodes first, and loses or invents none. */
  lemma {:induction false} SortAvailSorts(site: Site, avail: seq<NodeAvail>)
    ensures NodesAscending(site, SortAvail(site, avail))
    ensures forall i, j | 0 <= i < j < |avail| :: j < |SortAvail(site, avail)| && InOrder(site, SortAvail(site, avail)[i], SortAvail(site, avail)[j])
    ensures multiset(SortAvail(site, avail)) == multiset(EachSorted(avail))
  {
    if avail != [] {
      var first, rest := avail[0].(res := SortRes(avail[0].res)), SortAvail(site, avail[1..]);
      SortAvailSorts(site, avail[1..]);
      InsertNodePermutes(site, first, rest);
      InsertNodeAscending(site, first, rest);
      EachSortedCons(avail);
    }
    AscendingIsOrdered(site, avail, SortAvail(site, avail));
  }

  lemma AscendingIsOrdered(site: Site, avail: seq<NodeAvail>, sorted: seq<NodeAvail>)
    requires NodesAscending(site, sorted) && multiset(sorted) == multiset(EachSorted(avail))
    ensures |sorted| == |avail| && forall i, j | 0 <= i < j < |sorted| :: InOrder(site, sorted[i], sorted[j])
  {
    assert |sorted| == |multiset(sorted)| == |multiset(EachSorted(avail))| == |EachSorted(avail)| == |avail|;
    forall i, j | 0 <= i < j < |sorted| ensures InOrder(site, sorted[i], sorted[j]) { OrderMeans(site, sorted[i], sorted[j]); }
  }

  lemma EachSortedCons(avail: seq<NodeAvail>)
    requires avail != []
    ensures multiset(EachSorted(avail)) == multiset{avail[0].(res := SortRes(avail[0].res))} + multiset(EachSorted(avail[1..]))
  {
    assert EachSorted(avail) == [avail[0].(res := SortRes(avail[0].res))] + EachSorted(avail[1..]);
  }
}
