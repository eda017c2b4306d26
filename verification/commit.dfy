/** From a plan to an answer: asking the schedulers, committing the picks in request
    order, and regrouping them. When this fails half way, and when it cannot. */
module Commit {
  import opened Resources
  import opened Ledger
  import opened Matchers
  import opened Planner
  import opened PlanCommits
  import opened PlanTheorem
  import opened PlanSound
  import opened PlanShape
  import opened Requests

  /** How far a part of the commit got: the table it left, and what it allocated. */
  datatype Step<T> = Step(ok: bool, table: Table, out: seq<T>)

  function Prefix<T>(done: seq<T>, s: Step<T>): Step<T> { s.(out := done + s.out) }

  // -------------------------------------------------------------- committing

  predicate Served?(t: Table, q: Req) { Keyed(q) && KeyOf(q) in t && CanAllocate(t[KeyOf(q)], q) }

  /** A GPU is handed out with the launcher of its node. */
  predicate NeedsLauncher(q: Req) { q.cls == Some(GPU) }

  /** Commit requests one by one, each with a snapshot of its resource. A GPU on a
      node without launcher fails after it has been taken. */
  function CommitReqs(t: Table, qs: seq<Req>, uid: nat, launched: set<string>): (s: Step<Res>)
    ensures s.ok ==> |s.out| == |qs|
    decreases |qs|
  {
    if qs == [] then Step(true, t, [])
    else if !Served?(t, qs[0]) then Step(false, t, [])
    else
      var k := KeyOf(qs[0]);
      var t' := t[k := Grow(t[k], qs[0], uid)];
      if NeedsLauncher(qs[0]) && k.host !in launched then Step(false, t', [])
      else Prefix([t'[k]], CommitReqs(t', qs[1..], uid, launched))
  }

  function CommitLists(t: Table, ls: seq<seq<Req>>, uid: nat, launched: set<string>): (s: Step<seq<Res>>)
    ensures s.ok ==> |s.out| == |ls| && forall i | 0 <= i < |ls| :: |s.out[i]| == |ls[i]|
    decreases |ls|
  {
    if ls == [] then Step(true, t, [])
    else
      var s := CommitReqs(t, ls[0], uid, launched);
      if !s.ok then Step(false, s.table, []) else Prefix([s.out], CommitLists(s.table, ls[1..], uid, launched))
  }

  /** A node takes no resource of another node: it is the one that was asked for, or
      if none was named, that of the first resource. */
  predicate Misplaced(item: Item<Req>, lists: seq<seq<Req>>)
    requires Answerable(item, lists)
  {
    item.WholeNode? && exists q <- lists[0] :: q.host != if item.host.Some? then item.host else lists[0][0].host
  }

  /** Commit the lists of one item and put them into its shape. */
  function CommitItem(t: Table, item: Item<Req>, lists: seq<seq<Req>>, uid: nat, launched: set<string>): (s: Step<Item<Res>>)
    requires Answerable(item, lists)
  {
    var s := CommitLists(t, lists, uid, launched);
    if !s.ok || Misplaced(item, lists) then Step(false, s.table, []) else Step(true, s.table, [Regroup(item, s.out)])
  }

  function CommitItems(t: Table, items: seq<Item<Req>>, plan: seq<seq<Req>>, uid: nat, launched: set<string>): (s: Step<Item<Res>>)
    requires AllAnswerable(items, plan)
    decreases |items|
  {
    if items == [] then Step(true, t, [])
    else
      var w := |Lists(items[0])|;
      var s := CommitItem(t, items[0], plan[..w], uid, launched);
      if !s.ok then s else Prefix(s.out, CommitItems(s.table, items[1..], plan[w..], uid, launched))
  }

  predicate AnyMisplaced(items: seq<Item<Req>>, plan: seq<seq<Req>>)
    requires AllAnswerable(items, plan)
  {
    items != [] &&
    var w := |Lists(items[0])|;
    Misplaced(items[0], plan[..w]) || AnyMisplaced(items[1..], plan[w..])
  }

  // ------------------------------------------------------------ flattening

  /** What the first request of a list comes to. */
  lemma CommitReqsFirst(t: Table, qs: seq<Req>, uid: nat, launched: set<string>)
    requires qs != []
    ensures !Served?(t, qs[0]) ==> CommitReqs(t, qs, uid, launched) == Step(false, t, [])
    ensures Served?(t, qs[0]) ==>
              var k := KeyOf(qs[0]);
              var t' := t[k := Grow(t[k], qs[0], uid)];
              CommitReqs(t, qs, uid, launched) ==
                if NeedsLauncher(qs[0]) && k.host !in launched then Step(false, t', []) else Prefix([t'[k]], CommitReqs(t', qs[1..], uid, launched))
  {
  }

  lemma PrefixTwice<T>(a: seq<T>, b: seq<T>, s: Step<T>)
    ensures Prefix(a, Prefix(b, s)) == Prefix(a + b, s)
  {
    assert a + (b + s.out) == (a + b) + s.out;
  }

  lemma PrefixNothing<T>(s: Step<T>)
    ensures Prefix([], s) == s
  {
    assert [] + s.out == s.out;
  }

  lemma {:induction false} CommitReqsAppend(t: Table, ps: seq<Req>, qs: seq<Req>, uid: nat, launched: set<string>)
    ensures var s := CommitReqs(t, ps, uid, launched);
            CommitReqs(t, ps + qs, uid, launched) == if s.ok then Prefix(s.out, CommitReqs(s.table, qs, uid, launched)) else s
    decreases |ps|
  {
    if ps == [] {
      assert ps + qs == qs;
      PrefixNothing(CommitReqs(t, qs, uid, launched));
    } else {
      assert (ps + qs)[0] == ps[0] && (ps + qs)[1..] == ps[1..] + qs;
      CommitReqsFirst(t, ps, uid, launched);
      CommitReqsFirst(t, ps + qs, uid, launched);
      if Served?(t, ps[0]) {
        var k := KeyOf(ps[0]);
        var t' := t[k := Grow(t[k], ps[0], uid)];
        var s := CommitReqs(t', ps[1..], uid, launched);
        CommitReqsAppend(t', ps[1..], qs, uid, launched);
        PrefixTwice([t'[k]], s.out, CommitReqs(s.table, qs, uid, launched));
      }
    }
  }

  /** Committing lists is committing their requests in a row. */
  lemma {:induction false} ListsInARow(t: Table, ls: seq<seq<Req>>, uid: nat, launched: set<string>)
    ensures var s, r := CommitLists(t, ls, uid, launched), CommitReqs(t, Concat(ls), uid, launched);
            s.ok == r.ok && s.table == r.table && (s.ok ==> Concat(s.out) == r.out)
    decreases |ls|
  {
    if ls != [] {
      var s := CommitReqs(t, ls[0], uid, launched);
      CommitReqsAppend(t, ls[0], Concat(ls[1..]), uid, launched);
      if s.ok {
        ListsInARow(s.table, ls[1..], uid, launched);
        var rest := CommitLists(s.table, ls[1..], uid, launched);
        assert ([s.out] + rest.out)[1..] == rest.out;
      }
    }
  }

  lemma {:induction false} ConcatAppend<T>(a: seq<seq<T>>, b: seq<seq<T>>)
    ensures Concat(a + b) == Concat(a) + Concat(b)
  {
    if a == [] {
      assert a + b == b;
    } else {
      assert (a + b)[0] == a[0] && (a + b)[1..] == a[1..] + b;
      ConcatAppend(a[1..], b);
    }
  }

  lemma {:induction false} CommitListsAppend(t: Table, ls: seq<seq<Req>>, ms: seq<seq<Req>>, uid: nat, launched: set<string>)
    ensures var s := CommitLists(t, ls, uid, launched);
            CommitLists(t, ls + ms, uid, launched)
              == if s.ok then Prefix(s.out, CommitLists(s.table, ms, uid, launched)) else CommitLists(t, ls + ms, uid, launched)
    ensures CommitLists(t, ls, uid, launched).ok <== CommitLists(t, ls + ms, uid, launched).ok
    decreases |ls|
  {
    if ls == [] {
      assert ls + ms == ms;
      var s := CommitLists(t, ms, uid, launched);
      assert [] + s.out == s.out;
    } else {
      assert (ls + ms)[0] == ls[0] && (ls + ms)[1..] == ls[1..] + ms;
      var s := CommitReqs(t, ls[0], uid, launched);
      if s.ok {
        CommitListsAppend(s.table, ls[1..], ms, uid, launched);
        var r := CommitLists(s.table, ls[1..], uid, launched);
        if r.ok {
          var e := CommitLists(r.table, ms, uid, launched);
          assert [s.out] + (r.out + e.out) == ([s.out] + r.out) + e.out;
        }
      }
    }
  }

  /** Committing items succeeds exactly when their requests commit in a row and no
      node is misplaced, and then the answer is the snapshots, regrouped. */
  lemma {:induction false} ItemsInARow(t: Table, items: seq<Item<Req>>, plan: seq<seq<Req>>, uid: nat, launched: set<string>)
    requires AllAnswerable(items, plan)
    ensures var s, r := CommitItems(t, items, plan, uid, launched), CommitLists(t, plan, uid, launched);
            && (s.ok <==> r.ok && !AnyMisplaced(items, plan))
            && (s.ok ==> s.table == r.table && AllAnswerable(items, r.out) && s.out == RegroupAll(items, r.out))
    decreases |items|
  {
    if items != [] {
      var w := |Lists(items[0])|;
      var now, later := plan[..w], plan[w..];
      assert plan == now + later;
      CommitListsAppend(t, now, later, uid, launched);
      var s := CommitLists(t, now, uid, launched);
      if s.ok && !Misplaced(items[0], now) {
        ItemsInARow(s.table, items[1..], later, uid, launched);
        var e := CommitLists(s.table, later, uid, launched);
        if e.ok {
          assert (s.out + e.out)[..w] == s.out && (s.out + e.out)[w..] == e.out;
        }
      }
    }
  }

  // -------------------------------------------------------------- obstacles

  ghost predicate AllLaunched(qs: seq<Req>, launched: set<string>) {
    forall q <- qs :: Keyed(q) && NeedsLauncher(q) ==> q.host.value in launched
  }

  /** Requests commit one by one exactly when their grants commit and each GPU's node
      has a launcher; the table is then that of the grants. */
  lemma {:induction false} CommitReqsIs(t: Table, qs: seq<Req>, uid: nat, launched: set<string>)
    requires forall q <- qs :: Keyed(q)
    ensures var s := CommitReqs(t, qs, uid, launched);
            && (s.ok <==> CommitAll(t, GrantsOf(qs), uid).Some? && AllLaunched(qs, launched))
            && (s.ok ==> CommitAll(t, GrantsOf(qs), uid) == Some(s.table))
    decreases |qs|
  {
    if qs != [] {
      assert qs == [qs[0]] + qs[1..];
      assert GrantsOf(qs) == [Grant(KeyOf(qs[0]), qs[0])] + GrantsOf(qs[1..]);
      assert GrantsOf(qs)[1..] == GrantsOf(qs[1..]);
      if Served?(t, qs[0]) {
        var k := KeyOf(qs[0]);
        CommitReqsIs(t[k := Grow(t[k], qs[0], uid)], qs[1..], uid, launched);
      }
    }
  }

  function KeysIn(out: seq<Res>): seq<Key> {
    if out == [] then [] else [out[0].Key()] + KeysIn(out[1..])
  }

  /** The snapshots are of the resources picked. */
  lemma {:induction false} SnapshotKeys(t: Table, qs: seq<Req>, uid: nat, launched: set<string>)
    requires CommitReqs(t, qs, uid, launched).ok && (forall k <- t :: t[k].Key() == k) && forall q <- qs :: Keyed(q)
    ensures var out := CommitReqs(t, qs, uid, launched).out;
            KeysOf(GrantsOf(qs)) == KeysIn(out)
    decreases |qs|
  {
    if qs != [] {
      var k := KeyOf(qs[0]);
      var t' := t[k := Grow(t[k], qs[0], uid)];
      SnapshotKeys(t', qs[1..], uid, launched);
      assert GrantsOf(qs) == [Grant(k, qs[0])] + GrantsOf(qs[1..]);
      assert KeysOf(GrantsOf(qs)) == [k] + KeysOf(GrantsOf(qs[1..]));
      var out := CommitReqs(t', qs[1..], uid, launched).out;
      assert ([t'[k]] + out)[1..] == out && t'[k].Key() == k;
    }
  }

  ghost predicate NoneLost(t: Table, u: Table) {
    t.Keys == u.Keys && forall k <- t :: |t[k].owners| <= |u[k].owners|
  }

  lemma {:induction false} CommitLosesNone(t: Table, qs: seq<Req>, uid: nat, launched: set<string>)
    ensures NoneLost(t, CommitReqs(t, qs, uid, launched).table)
    ensures qs != [] && Served?(t, qs[0]) ==> CommitReqs(t, qs, uid, launched).table != t
    decreases |qs|
  {
    if qs != [] && Served?(t, qs[0]) {
      var k := KeyOf(qs[0]);
      var t' := t[k := Grow(t[k], qs[0], uid)];
      assert |t'[k].owners| == |t[k].owners| + 1;
      CommitLosesNone(t', qs[1..], uid, launched);
    }
  }

  lemma {:induction false} ItemsLoseNone(t: Table, items: seq<Item<Req>>, plan: seq<seq<Req>>, uid: nat, launched: set<string>)
    requires AllAnswerable(items, plan)
    ensures NoneLost(t, CommitItems(t, items, plan, uid, launched).table)
    decreases |items|
  {
    if items != [] {
      var w := |Lists(items[0])|;
      ListsInARow(t, plan[..w], uid, launched);
      CommitLosesNone(t, Concat(plan[..w]), uid, launched);
      var s := CommitItem(t, items[0], plan[..w], uid, launched);
      if s.ok { ItemsLoseNone(s.table, items[1..], plan[w..], uid, launched); }
    }
  }

  /** A commit that fails although all grants could be served has taken something. */
  lemma {:induction false} FailedCommitLeaks(t: Table, items: seq<Item<Req>>, plan: seq<seq<Req>>, uid: nat, launched: set<string>)
    requires AllAnswerable(items, plan) && CanCommit(t, plan, uid)
    requires !CommitItems(t, items, plan, uid, launched).ok
    ensures CommitItems(t, items, plan, uid, launched).table != t
    decreases |items|
  {
    var w := |Lists(items[0])|;
    var now, later := plan[..w], plan[w..];
    assert plan == now + later;
    ConcatAppend(now, later);
    GrantsOfAppend(Concat(now), Concat(later));
    CommitAppend(t, GrantsOf(Concat(now)), GrantsOf(Concat(later)), uid);
    ListsInARow(t, now, uid, launched);
    assert forall q <- Concat(now) :: q in Concat(plan);
    CommitReqsIs(t, Concat(now), uid, launched);
    CommitLosesNone(t, Concat(now), uid, launched);
    var s := CommitItem(t, items[0], now, uid, launched);
    if Concat(now) != [] {
      var q := Concat(now)[0];
      assert q in Concat(now) && Served?(t, q) by { FirstIsServed(t, Concat(now), uid); }
      if s.ok {
        ItemsLoseNone(s.table, items[1..], later, uid, launched);
        OwnersWentUp(t, Concat(now), uid, launched);
      }
    } else {
      NothingInLists(items[0], now);
      FailedCommitLeaks(t, items[1..], later, uid, launched);
    }
  }

  lemma FirstIsServed(t: Table, qs: seq<Req>, uid: nat)
    requires qs != [] && Keyed(qs[0]) && CommitAll(t, GrantsOf(qs), uid).Some?
    ensures Served?(t, qs[0])
  {
    assert GrantsOf(qs)[0] == Grant(KeyOf(qs[0]), qs[0]);
  }

  lemma OwnersWentUp(t: Table, qs: seq<Req>, uid: nat, launched: set<string>)
    requires qs != [] && Served?(t, qs[0])
    ensures var k := KeyOf(qs[0]);
            k in CommitReqs(t, qs, uid, launched).table && |t[k].owners| < |CommitReqs(t, qs, uid, launched).table[k].owners|
  {
    var k := KeyOf(qs[0]);
    CommitLosesNone(t[k := Grow(t[k], qs[0], uid)], qs[1..], uid, launched);
  }

  lemma NothingInLists(item: Item<Req>, lists: seq<seq<Req>>)
    requires Answerable(item, lists) && Concat(lists) == []
    ensures !Misplaced(item, lists)
  {
    if item.WholeNode? { assert lists[0] == []; }
  }
}
