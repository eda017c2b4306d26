/** The first-fit matchers. They work on copies of the resources of one node:
    what they pick, what they leave, and when they must succeed. */
module Matchers {
  import opened Resources
  import opened Ledger

  // ---------------------------------------------------------- first fit

  /** The first resource that can serve q; the length of rs when none can. */
  function FirstFit(rs: seq<Res>, q: Req): (i: nat)
    ensures i <= |rs|
    ensures i < |rs| ==> CanAllocate(rs[i], q)
    ensures forall j | 0 <= j < i :: !CanAllocate(rs[j], q)
  {
    if rs == [] || CanAllocate(rs[0], q) then 0 else 1 + FirstFit(rs[1..], q)
  }

  /** Serve q at position i; a resource that is full afterwards leaves the list. */
  function TakeAt(rs: seq<Res>, i: nat, q: Req, uid: nat): seq<Res>
    requires i < |rs|
  {
    var r := Grow(rs[i], q, uid);
    if IsFree(r) then rs[i := r] else rs[..i] + rs[i + 1..]
  }

  lemma FirstFitIs(rs: seq<Res>, q: Req, i: nat)
    requires i <= |rs| && (i < |rs| ==> CanAllocate(rs[i], q))
    requires forall j | 0 <= j < i :: !CanAllocate(rs[j], q)
    ensures FirstFit(rs, q) == i
  {
  }

  // ------------------------------------------------- fully fixed requests

  /** What remains after serving fixed requests in order; None if one fails. A
      request that is not fixed refers to no resource and so fails. */
  function MatchFixed(reqs: seq<Req>, avail: seq<Res>, uid: nat): Option<seq<Res>>
    decreases |reqs|
  {
    if reqs == [] then Some(avail)
    else
      var i := FirstFit(avail, reqs[0]);
      if DOF(reqs[0]) == 0 && i < |avail| then MatchFixed(reqs[1..], TakeAt(avail, i, reqs[0], uid), uid)
      else None
  }

  // ------------------------------------------------ partly fixed requests

  /** The requests after a match (the matcher writes into them even when it
      fails), and what remains when it succeeds. */
  datatype Match =
    | Matched(reqs: seq<Req>, rest: seq<Res>)
    | NoMatch(reqs: seq<Req>)
    | Unhandled(reqs: seq<Req>)

  function FixedOf(reqs: seq<Req>): seq<Req> {
    if reqs == [] then [] else (if DOF(reqs[0]) == 0 then [reqs[0]] else []) + FixedOf(reqs[1..])
  }

  function OfClass(rs: seq<Res>, c: ResClass): seq<Res> {
    if rs == [] then [] else (if rs[0].Key().cls == c then [rs[0]] else []) + OfClass(rs[1..], c)
  }

  function ByClass(rs: seq<Res>): seq<Res> {
    OfClass(rs, GPU) + OfClass(rs, Server) + OfClass(rs, Keyboard) + OfClass(rs, Mouse) + OfClass(rs, SLI)
  }

  /** Put requests in front of those of a match. */
  function After(done: seq<Req>, m: Match): Match {
    match m
    case Matched(qs, rest) => Matched(done + qs, rest)
    case NoMatch(qs) => NoMatch(done + qs)
    case Unhandled(qs) => Unhandled(done + qs)
  }

  /** First fit, in order, for the requests that still have freedom. */
  function AssignFree(reqs: seq<Req>, avail: seq<Res>, uid: nat): Match
    decreases |reqs|
  {
    if reqs == [] then Matched([], avail)
    else if DOF(reqs[0]) == 0 then After([reqs[0]], AssignFree(reqs[1..], avail, uid))
    else if reqs[0].cls.None? then Unhandled(reqs)
    else
      var i := FirstFit(avail, reqs[0]);
      if i == |avail| then NoMatch(reqs)
      else
        var q := Resolve(reqs[0], avail[i].Key());
        After([q], AssignFree(reqs[1..], TakeAt(avail, i, q, uid), uid))
  }

  function MatchPartly(reqs: seq<Req>, avail: seq<Res>, uid: nat): Match {
    match MatchFixed(FixedOf(reqs), avail, uid)
    case None => NoMatch(reqs)
    case Some(remaining) => AssignFree(reqs, ByClass(remaining), uid)
  }

  // ------------------------------------------------- matching and committing

  ghost predicate Distinct(rs: seq<Res>) {
    forall i, j | 0 <= i < j < |rs| :: rs[i].Key() != rs[j].Key()
  }

  /** The list holds free resources, in the state the table has them. */
  ghost predicate Backed(rs: seq<Res>, t: Table) {
    Distinct(rs) && forall r <- rs :: r.Key() in t && t[r.Key()] == r && IsFree(r)
  }

  /** The list holds exactly the resources among ks that are free in the table. */
  ghost predicate Mirrors(rs: seq<Res>, ks: set<Key>, t: Table) {
    && Backed(rs, t)
    && Within(rs, ks)
    && (forall k <- ks :: k in t && t[k].Key() == k && (IsFree(t[k]) <==> t[k] in rs))
  }

  ghost predicate Within(rs: seq<Res>, ks: set<Key>) {
    forall r <- rs :: r.Key() in ks
  }

  /** The grants resolved requests stand for. */
  function GrantsOf(qs: seq<Req>): seq<Grant> {
    if qs == [] then [] else (if Keyed(qs[0]) then [Grant(KeyOf(qs[0]), qs[0])] else []) + GrantsOf(qs[1..])
  }

  lemma {:induction false} GrantsOfAppend(ps: seq<Req>, qs: seq<Req>)
    ensures GrantsOf(ps + qs) == GrantsOf(ps) + GrantsOf(qs)
  {
    if ps == [] {
      assert ps + qs == qs;
    } else {
      var first := if Keyed(ps[0]) then [Grant(KeyOf(ps[0]), ps[0])] else [];
      assert (ps + qs)[0] == ps[0] && (ps + qs)[1..] == ps[1..] + qs;
      GrantsOfAppend(ps[1..], qs);
      assert first + (GrantsOf(ps[1..]) + GrantsOf(qs)) == (first + GrantsOf(ps[1..])) + GrantsOf(qs);
    }
  }

  lemma TakeStaysDistinct(rs: seq<Res>, i: nat, q: Req, uid: nat)
    requires i < |rs| && Distinct(rs)
    ensures Distinct(TakeAt(rs, i, q, uid))
  {
    var rs' := TakeAt(rs, i, q, uid);
    if !IsFree(Grow(rs[i], q, uid)) {
      assert forall j | 0 <= j < |rs'| :: rs'[j] == rs[if j < i then j else j + 1];
    }
  }

  lemma TakeStaysBacked(rs: seq<Res>, i: nat, q: Req, uid: nat, t: Table, t': Table)
    requires i < |rs| && Backed(rs, t)
    requires t' == t[rs[i].Key() := Grow(rs[i], q, uid)]
    ensures Backed(TakeAt(rs, i, q, uid), t')
  {
    TakeStaysDistinct(rs, i, q, uid);
    TakeMembers(rs, i, q, uid);
    forall r <- TakeAt(rs, i, q, uid)
      ensures r.Key() in t' && t'[r.Key()] == r && IsFree(r)
    {
      if r.Key() != rs[i].Key() { assert r in rs; }
    }
  }

  lemma TakeStaysMirror(rs: seq<Res>, i: nat, q: Req, uid: nat, ks: set<Key>, t: Table, t': Table)
    requires i < |rs| && Mirrors(rs, ks, t)
    requires t' == t[rs[i].Key() := Grow(rs[i], q, uid)]
    ensures Mirrors(TakeAt(rs, i, q, uid), ks, t')
  {
    TakeStaysBacked(rs, i, q, uid, t, t');
    var k0, rs' := rs[i].Key(), TakeAt(rs, i, q, uid);
    TakeMembers(rs, i, q, uid);
    forall k <- ks
      ensures IsFree(t'[k]) <==> t'[k] in rs'
    {
      if k != k0 { assert t'[k] == t[k] && t[k].Key() == k; }
    }
  }

  lemma TakeMembers(rs: seq<Res>, i: nat, q: Req, uid: nat)
    requires i < |rs| && Distinct(rs)
    ensures var r := Grow(rs[i], q, uid);
            forall s :: s in TakeAt(rs, i, q, uid) <==> (s in rs && s.Key() != r.Key()) || (s == r && IsFree(r))
  {
    var r, rs' := Grow(rs[i], q, uid), TakeAt(rs, i, q, uid);
    if IsFree(r) {
      assert rs'[i] == r;
      assert forall j | 0 <= j < |rs| && j != i :: rs'[j] == rs[j];
    } else {
      assert forall j | 0 <= j < i :: rs'[j] == rs[j];
      assert forall j | i < j < |rs| :: rs'[j - 1] == rs[j];
    }
  }

  /** Taking picks from list avail and leaving rest: the picks commit, rest stands
      for the table they lead to, and no other node is involved. */
  ghost predicate Took(avail: seq<Res>, picks: seq<Grant>, rest: seq<Res>, ks: set<Key>, t: Table, uid: nat) {
    && CommitAll(t, picks, uid).Some?
    && Backed(rest, CommitAll(t, picks, uid).value)
    && (Within(avail, ks) ==> Within(rest, ks) && forall g <- picks :: g.key in ks)
  }

  /** What a matcher establishes: besides, nothing free is lost. A list of exactly
      the free resources among ks stays one, each resource grown by its picks. */
  ghost predicate Served(avail: seq<Res>, picks: seq<Grant>, rest: seq<Res>, ks: set<Key>, t: Table, uid: nat) {
    && Took(avail, picks, rest, ks, t, uid)
    && (Mirrors(avail, ks, t) ==> Mirrors(rest, ks, CommitAll(t, picks, uid).value))
  }

  lemma ServedByTake(avail: seq<Res>, i: nat, q: Req, ks: set<Key>, t: Table, uid: nat)
    requires i < |avail| && Backed(avail, t) && CanAllocate(avail[i], q)
    ensures Served(avail, [Grant(avail[i].Key(), q)], TakeAt(avail, i, q, uid), ks, t, uid)
  {
    var k := avail[i].Key();
    assert avail[i] in avail;
    var t' := t[k := Grow(avail[i], q, uid)];
    assert CommitAll(t, [Grant(k, q)], uid) == CommitAll(t', [], uid) == Some(t');
    TakeStaysBacked(avail, i, q, uid, t, t');
    if Mirrors(avail, ks, t) { TakeStaysMirror(avail, i, q, uid, ks, t, t'); }
    TakeMembers(avail, i, q, uid);
  }

  lemma ServedInTurn(avail: seq<Res>, p1: seq<Grant>, mid: seq<Res>, p2: seq<Grant>, rest: seq<Res>,
                     ks: set<Key>, t: Table, uid: nat)
    requires Served(avail, p1, mid, ks, t, uid)
    requires Served(mid, p2, rest, ks, CommitAll(t, p1, uid).value, uid)
    ensures Served(avail, p1 + p2, rest, ks, t, uid)
  {
    CommitAppend(t, p1, p2, uid);
  }

  lemma ServedTrivially(avail: seq<Res>, ks: set<Key>, t: Table, uid: nat)
    requires Backed(avail, t)
    ensures Served(avail, [], avail, ks, t, uid)
  {
  }

  lemma FixedIsKeyed(r: Res, q: Req)
    requires CanAllocate(r, q) && DOF(q) == 0
    ensures Keyed(q) && KeyOf(q) == r.Key() && RefersToTheSame(r, q)
  {
  }

  lemma {:induction false} MatchFixedServes(reqs: seq<Req>, avail: seq<Res>, ks: set<Key>, t: Table, uid: nat)
    requires Backed(avail, t) && MatchFixed(reqs, avail, uid).Some?
    ensures forall q <- reqs :: Keyed(q)
    ensures Served(avail, GrantsOf(reqs), MatchFixed(reqs, avail, uid).value, ks, t, uid)
    decreases |reqs|
  {
    if reqs == [] {
      ServedTrivially(avail, ks, t, uid);
    } else {
      var q, i, later := reqs[0], FirstFit(avail, reqs[0]), reqs[1..];
      var mid, rest := TakeAt(avail, i, q, uid), MatchFixed(reqs, avail, uid).value;
      assert reqs == [q] + later;
      FixedIsKeyed(avail[i], q);
      var g := Grant(KeyOf(q), q);
      ServedByTake(avail, i, q, ks, t, uid);
      MatchFixedServes(later, mid, ks, CommitAll(t, [g], uid).value, uid);
      ServedInTurn(avail, [g], mid, GrantsOf(later), rest, ks, t, uid);
    }
  }

  /** The picks at the positions that had freedom. */
  function Picks(reqs: seq<Req>, picked: seq<Req>): seq<Req>
    requires |picked| == |reqs|
  {
    if reqs == [] then []
    else (if DOF(reqs[0]) == 0 then [] else [picked[0]]) + Picks(reqs[1..], picked[1..])
  }

  /** p is q with the index and host it left open filled in, and nothing else changed. */
  predicate FillsIn(q: Req, p: Req) {
    if DOF(q) == 0 then p == q
    else
      && Keyed(p) && p == Resolve(q, KeyOf(p))
      && (q.idx.Some? ==> p.idx == q.idx) && (q.host.Some? ==> p.host == q.host)
  }

  ghost predicate AllFillIn(reqs: seq<Req>, picked: seq<Req>) {
    |picked| == |reqs| && forall i | 0 <= i < |reqs| :: FillsIn(reqs[i], picked[i])
  }

  lemma {:induction false} PicksKeyed(reqs: seq<Req>, picked: seq<Req>)
    requires AllFillIn(reqs, picked)
    ensures forall q <- Picks(reqs, picked) :: Keyed(q)
  {
    if reqs != [] {
      assert FillsIn(reqs[0], picked[0]);
      PicksKeyed(reqs[1..], picked[1..]);
    }
  }

  lemma {:induction false} AssignFreeFills(reqs: seq<Req>, avail: seq<Res>, uid: nat)
    ensures |AssignFree(reqs, avail, uid).reqs| == |reqs|
    ensures AssignFree(reqs, avail, uid).Matched? ==> AllFillIn(reqs, AssignFree(reqs, avail, uid).reqs)
    decreases |reqs|
  {
    if reqs == [] {
    } else if DOF(reqs[0]) == 0 {
      AssignFreeFills(reqs[1..], avail, uid);
    } else if reqs[0].cls.Some? {
      var i := FirstFit(avail, reqs[0]);
      if i < |avail| {
        AssignFreeFills(reqs[1..], TakeAt(avail, i, Resolve(reqs[0], avail[i].Key()), uid), uid);
      }
    }
  }

  lemma {:induction false} AssignFreeServes(reqs: seq<Req>, avail: seq<Res>, ks: set<Key>, t: Table, uid: nat)
    requires Backed(avail, t) && AssignFree(reqs, avail, uid).Matched?
    ensures var m := AssignFree(reqs, avail, uid);
            && AllFillIn(reqs, m.reqs)
            && (forall q <- Picks(reqs, m.reqs) :: Keyed(q))
            && Served(avail, GrantsOf(Picks(reqs, m.reqs)), m.rest, ks, t, uid)
    decreases |reqs|
  {
    var m := AssignFree(reqs, avail, uid);
    AssignFreeFills(reqs, avail, uid);
    PicksKeyed(reqs, m.reqs);
    if reqs == [] {
      ServedTrivially(avail, ks, t, uid);
    } else if DOF(reqs[0]) == 0 {
      AssignFreeServes(reqs[1..], avail, ks, t, uid);
      assert m.reqs[1..] == AssignFree(reqs[1..], avail, uid).reqs;
      assert Picks(reqs, m.reqs) == Picks(reqs[1..], m.reqs[1..]);
    } else {
      var i := FirstFit(avail, reqs[0]);
      var q := Resolve(reqs[0], avail[i].Key());
      var mid, g := TakeAt(avail, i, q, uid), Grant(KeyOf(q), q);
      ServedByTake(avail, i, q, ks, t, uid);
      AssignFreeServes(reqs[1..], mid, ks, CommitAll(t, [g], uid).value, uid);
      var later := Picks(reqs[1..], AssignFree(reqs[1..], mid, uid).reqs);
      assert m.reqs[1..] == AssignFree(reqs[1..], mid, uid).reqs;
      assert Picks(reqs, m.reqs) == [q] + later;
      ServedInTurn(avail, [g], mid, GrantsOf(later), m.rest, ks, t, uid);
      assert GrantsOf([q] + later) == [g] + GrantsOf(later);
    }
  }

  // ------------------------------------------------------------ by class

  lemma {:induction false} OfClassMembers(rs: seq<Res>, c: ResClass)
    ensures forall r :: r in OfClass(rs, c) <==> r in rs && r.Key().cls == c
    ensures Distinct(rs) ==> Distinct(OfClass(rs, c))
  {
    if rs != [] {
      OfClassMembers(rs[1..], c);
      assert rs == [rs[0]] + rs[1..];
      if Distinct(rs) { DistinctInClass(rs, OfClass(rs[1..], c)); }
    }
  }

  lemma DistinctInClass(rs: seq<Res>, ss: seq<Res>)
    requires rs != [] && Distinct(rs) && forall r <- ss :: r in rs[1..]
    ensures Distinct(rs[1..]) && (Distinct(ss) ==> Distinct([rs[0]] + ss))
  {
    forall r <- ss
      ensures r.Key() != rs[0].Key()
    {
      var i :| 0 <= i < |rs| - 1 && rs[1..][i] == r;
      assert rs[i + 1] == r;
    }
    var all := [rs[0]] + ss;
    assert forall j | 1 <= j < |all| :: all[j] == ss[j - 1] && ss[j - 1] in ss;
  }

  lemma ByClassMembers(rs: seq<Res>)
    ensures forall r :: r in ByClass(rs) <==> r in rs
    ensures Distinct(rs) ==> Distinct(ByClass(rs))
  {
    OfClassMembers(rs, GPU);
    OfClassMembers(rs, Server);
    OfClassMembers(rs, Keyboard);
    OfClassMembers(rs, Mouse);
    OfClassMembers(rs, SLI);
    if Distinct(rs) {
      var a := OfClass(rs, GPU);
      var b := a + OfClass(rs, Server);
      var c := b + OfClass(rs, Keyboard);
      var d := c + OfClass(rs, Mouse);
      DistinctConcat(a, OfClass(rs, Server));
      DistinctConcat(b, OfClass(rs, Keyboard));
      DistinctConcat(c, OfClass(rs, Mouse));
      DistinctConcat(d, OfClass(rs, SLI));
    }
  }

  lemma DistinctConcat(a: seq<Res>, b: seq<Res>)
    requires Distinct(a) && Distinct(b)
    requires forall r <- a, s <- b :: r.Key().cls != s.Key().cls
    ensures Distinct(a + b)
  {
    forall i, j | 0 <= i < j < |a + b|
      ensures (a + b)[i].Key() != (a + b)[j].Key()
    {
      if i < |a| <= j { assert a[i] in a && b[j - |a|] in b; }
    }
  }

  /** A successful match commits: its picks, the fixed ones first, are all served
      by the table the availability list stands for, each request keeps what it
      asked for, and a list of exactly the free resources stays one. */
  lemma MatchPartlyServes(reqs: seq<Req>, avail: seq<Res>, ks: set<Key>, t: Table, uid: nat)
    requires Backed(avail, t) && MatchPartly(reqs, avail, uid).Matched?
    ensures var m := MatchPartly(reqs, avail, uid);
            && AllFillIn(reqs, m.reqs)
            && (forall q <- m.reqs :: Keyed(q))
            && Served(avail, GrantsOf(FixedOf(reqs)) + GrantsOf(Picks(reqs, m.reqs)), m.rest, ks, t, uid)
  {
    MatchFixedServes(FixedOf(reqs), avail, ks, t, uid);
    var remaining := MatchFixed(FixedOf(reqs), avail, uid).value;
    var t1 := CommitAll(t, GrantsOf(FixedOf(reqs)), uid).value;
    ByClassMembers(remaining);
    AssignFreeServes(reqs, ByClass(remaining), ks, t1, uid);
    var m := MatchPartly(reqs, avail, uid);
    assert Served(avail, GrantsOf(FixedOf(reqs)), ByClass(remaining), ks, t, uid);
    ServedInTurn(avail, GrantsOf(FixedOf(reqs)), ByClass(remaining), GrantsOf(Picks(reqs, m.reqs)),
                 m.rest, ks, t, uid);
    FixedOfFixed(reqs);
    forall q <- m.reqs
      ensures Keyed(q)
    {
      var i :| 0 <= i < |m.reqs| && m.reqs[i] == q;
      assert FillsIn(reqs[i], q);
      if DOF(reqs[i]) == 0 { assert reqs[i] in reqs; }
    }
  }

  lemma {:induction false} FixedOfFixed(reqs: seq<Req>)
    ensures forall q <- FixedOf(reqs) :: DOF(q) == 0 && q in reqs
    ensures forall q <- reqs :: DOF(q) == 0 ==> q in FixedOf(reqs)
  {
    if reqs != [] {
      FixedOfFixed(reqs[1..]);
      assert reqs == [reqs[0]] + reqs[1..];
    }
  }

  /** The first request is among the fixed ones or among the picks. */
  lemma FirstIsFixedOrPicked(reqs: seq<Req>, picked: seq<Req>)
    requires reqs != [] && AllFillIn(reqs, picked) && Keyed(picked[0])
    ensures var g, fs, ps := Grant(KeyOf(picked[0]), picked[0]), GrantsOf(FixedOf(reqs[1..])), GrantsOf(Picks(reqs[1..], picked[1..]));
            if DOF(reqs[0]) == 0 then GrantsOf(FixedOf(reqs)) == [g] + fs && GrantsOf(Picks(reqs, picked)) == ps
            else GrantsOf(FixedOf(reqs)) == fs && GrantsOf(Picks(reqs, picked)) == [g] + ps
  {
    var p, fs, ps := picked[0], FixedOf(reqs[1..]), Picks(reqs[1..], picked[1..]);
    assert FillsIn(reqs[0], p);
    if DOF(reqs[0]) == 0 {
      assert FixedOf(reqs) == [p] + fs && Picks(reqs, picked) == ps;
    } else {
      assert FixedOf(reqs) == fs && Picks(reqs, picked) == [p] + ps;
    }
  }

  /** Fixed and picked requests together are the matched list. */
  lemma {:induction false} FixedAndPicked(reqs: seq<Req>, picked: seq<Req>)
    requires AllFillIn(reqs, picked)
    requires forall q <- picked :: Keyed(q)
    ensures multiset(GrantsOf(picked))
         == multiset(GrantsOf(FixedOf(reqs)) + GrantsOf(Picks(reqs, picked)))
  {
    if reqs != [] {
      FixedAndPicked(reqs[1..], picked[1..]);
      var g, fs, ps := Grant(KeyOf(picked[0]), picked[0]), GrantsOf(FixedOf(reqs[1..])), GrantsOf(Picks(reqs[1..], picked[1..]));
      assert GrantsOf(picked) == [g] + GrantsOf(picked[1..]);
      InsertPermutes([g], GrantsOf(picked[1..]), fs, ps);
      FirstIsFixedOrPicked(reqs, picked);
    }
  }

  lemma InsertPermutes<T>(x: seq<T>, all: seq<T>, a: seq<T>, b: seq<T>)
    requires multiset(all) == multiset(a + b)
    ensures multiset(x + all) == multiset((x + a) + b) == multiset(a + (x + b))
  {
    assert (x + a) + b == x + (a + b);
    assert multiset(a + (x + b)) == multiset(a) + (multiset(x) + multiset(b));
    assert multiset(x + (a + b)) == multiset(x) + (multiset(a) + multiset(b));
  }
}
