/** What the whole-node test decides. The allocator recognises a node that is free
    as a whole by comparing weights. */
module WholeNode {
  import opened Resources
  import opened Matchers
  import opened Planner

  /** The weight of a resource nobody uses. */
  function BaseWeight(a: Attrs): int { Weight(Res(a, [], false, [])) }

  /** What sharers take off the weight of a GPU. */
  function SharedSlots(r: Res): int {
    if r.Key().cls == GPU && r.shared then r.attrs.limit - |r.owners| else 0
  }

  predicate PartlyShared(r: Res) { r.Key().cls == GPU && r.shared }

  lemma WeightSplits(r: Res)
    requires Safe(r) && IsFree(r)
    ensures Weight(r) == BaseWeight(r.attrs) - SharedSlots(r)
    ensures 0 <= SharedSlots(r) && (SharedSlots(r) == 0 <==> !PartlyShared(r))
  {
  }

  /** The weight of all resources of a node, as summed up when none is in use. */
  function WeightOfAll(hw: seq<Attrs>): int {
    if hw == [] then 0 else BaseWeight(hw[0]) + WeightOfAll(hw[1..])
  }

  function Find(rs: seq<Res>, k: Key): Option<Res> {
    if rs == [] then None else if rs[0].Key() == k then Some(rs[0]) else Find(rs[1..], k)
  }

  /** What one piece of hardware lacks for the node to be whole. */
  function Lack(a: Attrs, rs: seq<Res>): int {
    match Find(rs, a.key) case None => BaseWeight(a) case Some(r) => SharedSlots(r)
  }

  function TotalLack(hw: seq<Attrs>, rs: seq<Res>): int {
    if hw == [] then 0 else Lack(hw[0], rs) + TotalLack(hw[1..], rs)
  }

  ghost predicate DistinctKeys(hw: seq<Attrs>) { forall i, j | 0 <= i < j < |hw| :: hw[i].key != hw[j].key }

  /** rs are free resources of the node with hardware hw. */
  ghost predicate OfNode(rs: seq<Res>, hw: seq<Attrs>) {
    Distinct(rs) && forall r <- rs :: r.attrs in hw && Safe(r) && IsFree(r)
  }

  function Without<T>(s: seq<T>, i: nat): seq<T>
    requires i < |s|
  {
    s[..i] + s[i + 1..]
  }

  lemma {:induction false} FindFinds(rs: seq<Res>, k: Key)
    ensures Find(rs, k).Some? <==> exists r <- rs :: r.Key() == k
    ensures Find(rs, k).Some? ==> Find(rs, k).value in rs && Find(rs, k).value.Key() == k
  {
    if rs != [] {
      FindFinds(rs[1..], k);
      assert rs == [rs[0]] + rs[1..];
    }
  }

  lemma {:induction false} FindElsewhere(rs: seq<Res>, i: nat, k: Key)
    requires i < |rs| && rs[i].Key() != k
    ensures Find(Without(rs, i), k) == Find(rs, k)
  {
    if i == 0 {
      assert Without(rs, 0) == rs[1..];
    } else {
      assert Without(rs, i)[0] == rs[0] && Without(rs, i)[1..] == Without(rs[1..], i - 1);
      FindElsewhere(rs[1..], i - 1, k);
    }
  }

  lemma {:induction false} LackElsewhere(hw: seq<Attrs>, rs: seq<Res>, i: nat)
    requires i < |rs| && forall a <- hw :: a.key != rs[i].Key()
    ensures TotalLack(hw, Without(rs, i)) == TotalLack(hw, rs)
  {
    if hw != [] {
      assert hw[0] in hw;
      FindElsewhere(rs, i, hw[0].key);
      LackElsewhere(hw[1..], rs, i);
    }
  }

  lemma {:induction false} WeightWithout(rs: seq<Res>, i: nat)
    requires i < |rs|
    ensures TotalWeight(rs) == Weight(rs[i]) + TotalWeight(Without(rs, i))
  {
    if i == 0 {
      assert Without(rs, 0) == rs[1..];
    } else {
      assert Without(rs, i)[0] == rs[0] && Without(rs, i)[1..] == Without(rs[1..], i - 1);
      WeightWithout(rs[1..], i - 1);
    }
  }

  lemma OfNodeWithout(rs: seq<Res>, hw: seq<Attrs>, i: nat)
    requires hw != [] && DistinctKeys(hw) && OfNode(rs, hw) && i < |rs| && rs[i].Key() == hw[0].key
    ensures OfNode(Without(rs, i), hw[1..]) && rs[i].attrs == hw[0]
  {
    var rest := Without(rs, i);
    assert rs[i] in rs;
    assert forall j | 0 <= j < |rest| :: rest[j] == rs[if j < i then j else j + 1];
    forall r <- rest
      ensures r.attrs in hw[1..]
    {
      var j :| 0 <= j < |rest| && rest[j] == r;
      assert r in rs && r.Key() != rs[i].Key();
      assert hw == [hw[0]] + hw[1..];
    }
  }

  lemma OfNodeTail(rs: seq<Res>, hw: seq<Attrs>)
    requires hw != [] && DistinctKeys(hw) && OfNode(rs, hw) && Find(rs, hw[0].key).None?
    ensures OfNode(rs, hw[1..])
  {
    FindFinds(rs, hw[0].key);
    assert hw == [hw[0]] + hw[1..];
  }

  lemma FirstIsIn(rs: seq<Res>)
    requires rs != []
    ensures rs[0] in rs
  {
  }

  /** The free resources of a node weigh what all of them weigh less what each one
      lacks: all of it if it is missing, its shared slots if it is there. */
  lemma {:induction false} WeightGap(hw: seq<Attrs>, rs: seq<Res>)
    requires DistinctKeys(hw) && OfNode(rs, hw)
    ensures TotalWeight(rs) == WeightOfAll(hw) - TotalLack(hw, rs)
  {
    if hw == [] {
      if rs != [] {
        FirstIsIn(rs);
        assert false;
      }
    } else {
      var a, tail := hw[0], hw[1..];
      assert forall i | 0 <= i < |tail| :: tail[i] == hw[i + 1];
      FindFinds(rs, a.key);
      if Find(rs, a.key).None? {
        OfNodeTail(rs, hw);
        WeightGap(tail, rs);
      } else {
        var i :| 0 <= i < |rs| && rs[i] == Find(rs, a.key).value;
        OfNodeWithout(rs, hw, i);
        WeightGap(tail, Without(rs, i));
        WeightWithout(rs, i);
        assert rs[i] in rs;
        WeightSplits(rs[i]);
        LackElsewhere(tail, rs, i);
      }
    }
  }

  lemma {:induction false} NoLack(hw: seq<Attrs>, rs: seq<Res>)
    requires forall a <- hw :: 0 <= Lack(a, rs)
    ensures 0 <= TotalLack(hw, rs)
    ensures TotalLack(hw, rs) == 0 <==> forall a <- hw :: Lack(a, rs) == 0
  {
    if hw != [] {
      assert hw[0] in hw;
      NoLack(hw[1..], rs);
      assert hw == [hw[0]] + hw[1..];
    }
  }

  ghost predicate AllThere(hw: seq<Attrs>, rs: seq<Res>) { forall a <- hw :: exists r <- rs :: r.attrs == a }

  lemma ThereIsFound(a: Attrs, hw: seq<Attrs>, rs: seq<Res>)
    requires DistinctKeys(hw) && OfNode(rs, hw) && a in hw
    ensures Find(rs, a.key).Some? <==> exists r <- rs :: r.attrs == a
    ensures Find(rs, a.key).Some? ==> Find(rs, a.key).value.attrs == a && Find(rs, a.key).value in rs
  {
    FindFinds(rs, a.key);
    if Find(rs, a.key).Some? {
      var r := Find(rs, a.key).value;
      var i :| 0 <= i < |hw| && hw[i] == a;
      var j :| 0 <= j < |hw| && hw[j] == r.attrs;
      assert i == j;
    }
  }

  /** The test on weights passes exactly when no GPU of the node is partly shared
      and each resource that is missing weighs nothing. */
  lemma WholeTestMeans(hw: seq<Attrs>, rs: seq<Res>)
    requires DistinctKeys(hw) && OfNode(rs, hw) && forall a <- hw :: 0 <= BaseWeight(a)
    ensures TotalWeight(rs) == WeightOfAll(hw) <==>
              (forall r <- rs :: !PartlyShared(r))
              && (forall a <- hw :: (forall r <- rs :: r.attrs != a) ==> BaseWeight(a) == 0)
  {
    forall a <- hw
      ensures 0 <= Lack(a, rs)
      ensures Lack(a, rs) == 0 <==>
                if Find(rs, a.key).Some? then !PartlyShared(Find(rs, a.key).value) else BaseWeight(a) == 0
      ensures Find(rs, a.key).Some? <==> exists r <- rs :: r.attrs == a
    {
      ThereIsFound(a, hw, rs);
      if Find(rs, a.key).Some? { WeightSplits(Find(rs, a.key).value); }
    }
    WeightGap(hw, rs);
    NoLack(hw, rs);
    forall r <- rs
      ensures Find(rs, r.Key()) == Some(r)
    {
      FindFinds(rs, r.Key());
    }
  }

  /** With positive weights the test is exact: the whole node is there, and no GPU
      of it is partly shared. */
  lemma WholeTestExact(hw: seq<Attrs>, rs: seq<Res>)
    requires DistinctKeys(hw) && OfNode(rs, hw) && forall a <- hw :: 0 < BaseWeight(a)
    ensures TotalWeight(rs) == WeightOfAll(hw) <==> AllThere(hw, rs) && forall r <- rs :: !PartlyShared(r)
  {
    WholeTestMeans(hw, rs);
  }

  /** A GPU with index 0, no bias and no scanouts. */
  function PlainGpu(host: string, idx: nat): Attrs {
    Attrs(Key(GPU, idx, host), None, 1, 0, None, None, 0, None)
  }

  lemma AloneWeighs(a: Attrs)
    ensures TotalWeight([Res(a, [], false, [])]) == BaseWeight(a) == WeightOfAll([a])
  {
    var r := Res(a, [], false, []);
    assert [r][1..] == [] && [a][1..] == [];
    assert TotalWeight([r]) == Weight(r) + TotalWeight([]);
    assert WeightOfAll([a]) == BaseWeight(a) + WeightOfAll([]);
  }

  /** The test does not see weightless resources: a node whose first GPU is taken
      passes as whole. */
  lemma TakenGpuPassesAsWhole(host: string)
    ensures BaseWeight(PlainGpu(host, 0)) == 0
    ensures var hw, rs := [PlainGpu(host, 0), PlainGpu(host, 1)], [Res(PlainGpu(host, 1), [], false, [])];
            DistinctKeys(hw) && OfNode(rs, hw) && TotalWeight(rs) == WeightOfAll(hw) && !AllThere(hw, rs)
  {
    var a, b := PlainGpu(host, 0), PlainGpu(host, 1);
    AloneWeighs(b);
    assert [a, b][1..] == [b] && WeightOfAll([a, b]) == BaseWeight(a) + WeightOfAll([b]);
    assert a in [a, b];
  }

  // -------------------------------------------------------- wanted resources

  ghost predicate Assigned(wants: seq<Req>, rs: seq<Res>, at: seq<nat>) {
    && |at| == |wants|
    && (forall i | 0 <= i < |at| :: at[i] < |rs| && TypeSearchMatch(rs[at[i]].attrs, wants[i]))
    && (forall i, j | 0 <= i < j < |at| :: at[i] != at[j])
  }

  function Back(at: seq<nat>, i: nat): seq<nat> {
    seq(|at|, j requires 0 <= j < |at| => if at[j] < i then at[j] else at[j] + 1)
  }

  /** Places in a list without one entry, read as places in the list itself. */
  lemma BackAssigned(wants: seq<Req>, rs: seq<Res>, i: nat, at: seq<nat>)
    requires i < |rs| && Assigned(wants, Without(rs, i), at)
    ensures Assigned(wants, rs, Back(at, i)) && i !in Back(at, i)
  {
    forall j | 0 <= j < |at|
      ensures Back(at, i)[j] < |rs| && TypeSearchMatch(rs[Back(at, i)[j]].attrs, wants[j])
    {
      assert Without(rs, i)[at[j]] == rs[Back(at, i)[j]];
    }
  }

  /** Wanted resources that are found are found in different places. */
  lemma {:induction false} WantedAreDistinct(wants: seq<Req>, rs: seq<Res>) returns (at: seq<nat>)
    requires HasWanted(wants, rs)
    ensures Assigned(wants, rs, at)
    decreases |wants|
  {
    if wants == [] {
      at := [];
    } else {
      var i := FirstOfType(rs, wants[0]);
      var later := WantedAreDistinct(wants[1..], Without(rs, i));
      BackAssigned(wants[1..], rs, i, later);
      at := [i] + Back(later, i);
      PutFirst(wants, rs, i, Back(later, i));
    }
  }

  lemma PutFirst(wants: seq<Req>, rs: seq<Res>, i: nat, at: seq<nat>)
    requires wants != [] && i < |rs| && TypeSearchMatch(rs[i].attrs, wants[0])
    requires Assigned(wants[1..], rs, at) && i !in at
    ensures Assigned(wants, rs, [i] + at)
  {
    var at' := [i] + at;
    forall j | 0 < j < |at'|
      ensures at'[j] < |rs| && TypeSearchMatch(rs[at'[j]].attrs, wants[j]) && at'[j] != i
    {
      assert at'[j] == at[j - 1] && wants[j] == wants[1..][j - 1];
    }
    forall j, k | 0 <= j < k < |at'| ensures at'[j] != at'[k] { assert at'[k] == at[k - 1]; }
  }

  /** The search for a whole node succeeds exactly when some node passes the test
      and has what is wanted. */
  lemma {:induction false} WholeNodeFound(site: Site, st: PlanState, g: nat, wants: seq<Req>, n: nat)
    requires Shaped(st) && g < |st.groups| && n <= |st.avail|
    ensures TryWholeNode(site, st, g, wants, n).Done?
       <==> exists m | n <= m < |st.avail| :: IsWhole(site, st.avail[m]) && HasWanted(wants, st.avail[m].res)
    ensures TryWholeNode(site, st, g, wants, n).Done? ==>
              exists m | n <= m < |st.avail| ::
                && IsWhole(site, st.avail[m]) && HasWanted(wants, st.avail[m].res)
                && TryWholeNode(site, st, g, wants, n).value == Accept(st, g, m, AsRequests(st.avail[m].res), [])
    decreases |st.avail| - n
  {
    if n < |st.avail| { WholeNodeFound(site, st, g, wants, n + 1); }
  }

  predicate Suitable(site: Site, wants: seq<Req>, a: NodeAvail) { IsWhole(site, a) && HasWanted(wants, a.res) }

  ghost predicate NoneSuitable(site: Site, wants: seq<Req>, avail: seq<NodeAvail>, n: nat, m: nat)
    requires m <= |avail|
  {
    forall j | n <= j < m :: !Suitable(site, wants, avail[j])
  }

  /** The search takes the first such node. */
  lemma {:induction false} FirstSuitable(site: Site, st: PlanState, g: nat, wants: seq<Req>, n: nat) returns (m: nat)
    requires Shaped(st) && g < |st.groups| && n <= |st.avail|
    ensures n <= m <= |st.avail| && NoneSuitable(site, wants, st.avail, n, m)
    ensures if m == |st.avail| then TryWholeNode(site, st, g, wants, n) == Raised(UserError)
            else Suitable(site, wants, st.avail[m])
                 && TryWholeNode(site, st, g, wants, n) == Done(Accept(st, g, m, AsRequests(st.avail[m].res), []))
    decreases |st.avail| - n
  {
    m := n;
    if n < |st.avail| && !Suitable(site, wants, st.avail[n]) {
      m := FirstSuitable(site, st, g, wants, n + 1);
      assert NoneSuitable(site, wants, st.avail, n, m);
    }
  }

  /** How many resources match a request. */
  function Matching(rs: seq<Res>, q: Req): nat {
    if rs == [] then 0 else (if TypeSearchMatch(rs[0].attrs, q) then 1 else 0) + Matching(rs[1..], q)
  }

  /** All want the same: what one of these resources matches any of them it matches all. */
  ghost predicate WantAlike(wants: seq<Req>, rs: seq<Res>) {
    forall u <- wants, w <- wants, r <- rs :: TypeSearchMatch(r.attrs, u) <==> TypeSearchMatch(r.attrs, w)
  }

  lemma {:induction false} MatchingWithout(rs: seq<Res>, i: nat, q: Req)
    requires i < |rs|
    ensures Matching(rs, q) == Matching(Without(rs, i), q) + if TypeSearchMatch(rs[i].attrs, q) then 1 else 0
  {
    if i == 0 {
      assert Without(rs, 0) == rs[1..];
    } else {
      assert Without(rs, i)[0] == rs[0] && Without(rs, i)[1..] == Without(rs[1..], i - 1);
      MatchingWithout(rs[1..], i - 1, q);
    }
  }

  lemma {:induction false} SomeMatching(rs: seq<Res>, q: Req)
    ensures Matching(rs, q) > 0 <==> FirstOfType(rs, q) < |rs|
  {
    if rs != [] { SomeMatching(rs[1..], q); }
  }

  lemma {:induction false} SameMatching(rs: seq<Res>, u: Req, w: Req)
    requires forall r <- rs :: TypeSearchMatch(r.attrs, u) <==> TypeSearchMatch(r.attrs, w)
    ensures Matching(rs, u) == Matching(rs, w)
  {
    if rs != [] {
      assert rs[0] in rs;
      SameMatching(rs[1..], u, w);
    }
  }

  /** A node has what is wanted, where all that is wanted is alike, exactly if it has as
      many matching resources. */
  lemma {:induction false} LikeWantedExactly(wants: seq<Req>, rs: seq<Res>, q: Req)
    requires WantAlike(wants, rs) && q in wants
    ensures HasWanted(wants, rs) <==> |wants| <= Matching(rs, q)
    decreases |wants|
  {
    var w, later, i := wants[0], wants[1..], FirstOfType(rs, wants[0]);
    assert w in wants;
    SameMatching(rs, q, w);
    SomeMatching(rs, w);
    if i < |rs| {
      MatchingWithout(rs, i, w);
      var left := Without(rs, i);
      assert forall r <- left :: r in rs;
      if later != [] {
        assert later[0] in later && forall u <- later :: u in wants;
        SameMatching(left, w, later[0]);
        LikeWantedExactly(later, left, later[0]);
      }
    }
  }
}
