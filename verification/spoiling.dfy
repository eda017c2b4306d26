/** Which requests the look-ahead can spoil, in the caller's terms. */
module Spoiling {
  import opened Resources
  import opened Planner
  import opened Waiting
  import Requests

  ghost predicate Before(r: Ref, s: Ref) { r.g < s.g || (r.g == s.g && r.p < s.p) }

  ghost predicate InOrder(refs: seq<Ref>) { forall i, j | 0 <= i < j < |refs| :: Before(refs[i], refs[j]) }

  lemma JoinedInOrder(a: seq<Ref>, b: seq<Ref>)
    requires InOrder(a) && InOrder(b) && forall r <- a, s <- b :: Before(r, s)
    ensures InOrder(a + b)
  {
    forall i, j | 0 <= i < j < |a + b|
      ensures Before((a + b)[i], (a + b)[j])
    {
      if i < |a| <= j { assert a[i] in a && b[j - |a|] in b; }
    }
  }

  lemma {:induction false} RefsInOrdered(reqs: seq<Req>, g: nat, p: nat, host: string)
    requires p <= |reqs|
    ensures InOrder(RefsIn(reqs, g, p, host))
    decreases |reqs| - p
  {
    if p < |reqs| {
      RefsInOrdered(reqs, g, p + 1, host);
      RefsInAre(reqs, g, p + 1, host);
    }
  }

  /** Those who wait are listed in the order of the request. */
  lemma {:induction false} RefsForOrdered(groups: seq<Group>, g: nat, host: string)
    requires g <= |groups|
    ensures InOrder(RefsFor(groups, g, host))
    decreases |groups| - g
  {
    if g < |groups| {
      var reqs := GroupReqs(groups[g]);
      RefsForOrdered(groups, g + 1, host);
      RefsForAre(groups, g + 1, host);
      RefsInOrdered(reqs, g, 0, host);
      RefsInAre(reqs, g, 0, host);
      if GroupDOF(groups[g]) == 2 { JoinedInOrder(RefsIn(reqs, g, 0, host), RefsFor(groups, g + 1, host)); }
    }
  }

  /** Two requests of one list wait for the host, and no list before it does. */
  ghost predicate TwoWaitFirst(groups: seq<Group>, host: string, r: Ref, s: Ref) {
    && Waits(groups, r, host) && Waits(groups, s, host) && r.g == s.g && r.p < s.p
    && forall x | Waits(groups, x, host) :: r.g <= x.g
  }

  /** The look-ahead can spoil a request exactly if it has an index-only list, and of
      some host the first list that waits for it has two open requests. */
  lemma SpoilableExactly(groups: seq<Group>)
    ensures Spoilable(groups)
      <==> (exists g <- groups :: GroupDOF(g) == 1) && exists host, r, s :: TwoWaitFirst(groups, host, r, s)
  {
    if Spoilable(groups) {
      var host, j :| 1 <= j < |RefsFor(groups, 0, host)| && RefsFor(groups, 0, host)[j].g == RefsFor(groups, 0, host)[0].g;
      FirstTwoWait(groups, host, j);
    }
    if host, r, s :| TwoWaitFirst(groups, host, r, s) {
      var j := SecondOfFirst(groups, host, r, s);
    }
  }

  lemma FirstTwoWait(groups: seq<Group>, host: string, j: nat)
    requires 1 <= j < |RefsFor(groups, 0, host)| && RefsFor(groups, 0, host)[j].g == RefsFor(groups, 0, host)[0].g
    ensures TwoWaitFirst(groups, host, RefsFor(groups, 0, host)[0], RefsFor(groups, 0, host)[j])
  {
    var refs := RefsFor(groups, 0, host);
    RefsForAre(groups, 0, host);
    RefsForOrdered(groups, 0, host);
    assert refs[0] in refs && refs[j] in refs && Before(refs[0], refs[j]);
    forall x | Waits(groups, x, host)
      ensures refs[0].g <= x.g
    {
      var i :| 0 <= i < |refs| && refs[i] == x;
      assert i == 0 || Before(refs[0], refs[i]);
    }
  }

  lemma SecondOfFirst(groups: seq<Group>, host: string, r: Ref, s: Ref) returns (j: nat)
    requires TwoWaitFirst(groups, host, r, s)
    ensures 1 <= j < |RefsFor(groups, 0, host)| && RefsFor(groups, 0, host)[j].g == RefsFor(groups, 0, host)[0].g
  {
    var refs := RefsFor(groups, 0, host);
    RefsForAre(groups, 0, host);
    RefsForOrdered(groups, 0, host);
    var i :| 0 <= i < |refs| && refs[i] == r;
    var k :| 0 <= k < |refs| && refs[k] == s;
    assert i < k || Before(refs[k], refs[i]) || i == k;
    assert refs[0] in refs;
    j := k;
    assert Before(refs[0], refs[k]);
  }

  /** Lists of at most one resource are never spoiled: not by any index-only list, and
      however many of them wait for one host. */
  lemma ShortListsNeverSpoil(groups: seq<Group>)
    requires forall g <- groups :: g.Reqs? ==> |g.reqs| <= 1
    ensures !Spoilable(PasteAll(groups))
  {
    var pasted := PasteAll(groups);
    SpoilableExactly(pasted);
    forall i | 0 <= i < |groups|
      ensures |GroupReqs(pasted[i])| <= 1
    {
      assert groups[i] in groups;
    }
  }

  /** A request of single resources and nodes is never spoiled. */
  lemma SinglesNeverSpoil(items: seq<Requests.Item<Req>>)
    requires forall item <- items :: item.Single? || item.WholeNode?
    ensures !Spoilable(PasteAll(Requests.ExpandAll(items)))
  {
    SinglesAreShort(items);
    ShortListsNeverSpoil(Requests.ExpandAll(items));
  }

  lemma {:induction false} SinglesAreShort(items: seq<Requests.Item<Req>>)
    requires forall item <- items :: item.Single? || item.WholeNode?
    ensures forall g <- Requests.ExpandAll(items) :: g.Reqs? ==> |g.reqs| <= 1
  {
    if items != [] {
      assert items[0] in items;
      SinglesAreShort(items[1..]);
      var first := Requests.Expand(items[0]);
      forall g <- Requests.ExpandAll(items)
        ensures g.Reqs? ==> |g.reqs| <= 1
      {
        assert g in first || g in Requests.ExpandAll(items[1..]);
      }
    }
  }
}
