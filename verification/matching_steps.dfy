/** The matchers as the allocator runs them: loops over lists that are popped and
    rewritten in place, each proved to compute what Matchers specifies. */
module MatchingSteps {
  import opened Resources
  import opened Ledger
  import opened Matchers

  // ------------------------------------------------------------- classify

  /** The requests that still have freedom. */
  function FreeOf(reqs: seq<Req>): seq<Req> {
    if reqs == [] then [] else (if DOF(reqs[0]) == 0 then [] else [reqs[0]]) + FreeOf(reqs[1..])
  }

  lemma {:induction false} FreeOfAppend(reqs: seq<Req>, q: Req)
    ensures FreeOf(reqs + [q]) == FreeOf(reqs) + if DOF(q) == 0 then [] else [q]
  {
    if reqs == [] {
      assert [q][1..] == [];
    } else {
      assert (reqs + [q])[0] == reqs[0] && (reqs + [q])[1..] == reqs[1..] + [q];
      FreeOfAppend(reqs[1..], q);
      var first, last := FreeOf([reqs[0]]), FreeOf([q]);
      assert [reqs[0]][1..] == [] && [q][1..] == [];
      assert first + (FreeOf(reqs[1..]) + last) == (first + FreeOf(reqs[1..])) + last;
    }
  }

  lemma {:induction false} FixedOfAppend(reqs: seq<Req>, q: Req)
    ensures FixedOf(reqs + [q]) == FixedOf(reqs) + if DOF(q) == 0 then [q] else []
  {
    if reqs == [] {
      assert [q][1..] == [];
    } else {
      assert (reqs + [q])[0] == reqs[0] && (reqs + [q])[1..] == reqs[1..] + [q];
      FixedOfAppend(reqs[1..], q);
      var first, last := FixedOf([reqs[0]]), FixedOf([q]);
      assert [reqs[0]][1..] == [] && [q][1..] == [];
      assert first + (FixedOf(reqs[1..]) + last) == (first + FixedOf(reqs[1..])) + last;
    }
  }

  /** A split request list: final has the fixed requests, and a hole for each other one,
      which is in free, with the index of its hole in holes. */
  ghost predicate Classified(reqs: seq<Req>, final: seq<Option<Req>>, free: seq<Req>, holes: seq<nat>) {
    && |final| == |reqs| && (forall i | 0 <= i < |reqs| :: final[i] == if DOF(reqs[i]) == 0 then Some(reqs[i]) else None)
    && free == FreeOf(reqs) && HolesOf(reqs, holes)
    && |holes| == |free| && (forall j | 0 <= j < |holes| :: free[j] == reqs[holes[j]])
  }

  /** holes lists, in order, the positions that have freedom. */
  ghost predicate HolesOf(reqs: seq<Req>, holes: seq<nat>) {
    && (forall j | 0 <= j < |holes| :: holes[j] < |reqs| && DOF(reqs[holes[j]]) != 0)
    && (forall i, j | 0 <= i < j < |holes| :: holes[i] < holes[j])
    && (forall i | 0 <= i < |reqs| && DOF(reqs[i]) != 0 :: i in holes)
  }

  lemma ClassifiedFixed(reqs: seq<Req>, final: seq<Option<Req>>, free: seq<Req>, holes: seq<nat>, q: Req)
    requires Classified(reqs, final, free, holes) && DOF(q) == 0
    ensures Classified(reqs + [q], final + [Some(q)], free, holes)
  {
    FreeOfAppend(reqs, q);
    var reqs' := reqs + [q];
    forall i | 0 <= i < |reqs'| && DOF(reqs'[i]) != 0
      ensures i in holes
    {
      assert reqs'[i] == reqs[i];
    }
    assert HolesOf(reqs', holes);
    assert free + [] == free;
  }

  lemma ClassifiedHole(reqs: seq<Req>, final: seq<Option<Req>>, free: seq<Req>, holes: seq<nat>, q: Req)
    requires Classified(reqs, final, free, holes) && DOF(q) != 0
    ensures Classified(reqs + [q], final + [None], free + [q], holes + [|reqs|])
  {
    FreeOfAppend(reqs, q);
    HolesNext(reqs, holes, q);
    var reqs', free', holes' := reqs + [q], free + [q], holes + [|reqs|];
    forall j | 0 <= j < |holes'|
      ensures free'[j] == reqs'[holes'[j]]
    {
      if j < |holes| { assert holes'[j] == holes[j] && free'[j] == free[j]; }
    }
  }

  lemma HolesNext(reqs: seq<Req>, holes: seq<nat>, q: Req)
    requires HolesOf(reqs, holes) && DOF(q) != 0
    ensures HolesOf(reqs + [q], holes + [|reqs|])
  {
    var reqs', holes' := reqs + [q], holes + [|reqs|];
    forall i | 0 <= i < |reqs'| && DOF(reqs'[i]) != 0
      ensures i in holes'
    {
      if i == |reqs| { assert holes'[|holes|] == i; } else { assert reqs'[i] == reqs[i] && i in holes; }
    }
    forall j | 0 <= j < |holes'|
      ensures holes'[j] < |reqs'| && DOF(reqs'[holes'[j]]) != 0
    {
      if j < |holes| { assert holes'[j] == holes[j]; }
    }
  }

  /** Split a request list: fixed requests keep their place, the others leave a
      hole and go, with the index of their hole, into a list to be allocated. */
  method ClassifyRes(reqs: seq<Req>) returns (final: seq<Option<Req>>, free: seq<Req>, holes: seq<nat>)
    ensures Classified(reqs, final, free, holes)
  {
    final, free, holes := [], [], [];
    for n := 0 to |reqs|
      invariant Classified(reqs[..n], final, free, holes)
    {
      assert reqs[..n + 1] == reqs[..n] + [reqs[n]];
      if DOF(reqs[n]) == 0 {
        ClassifiedFixed(reqs[..n], final, free, holes, reqs[n]);
        final := final + [Some(reqs[n])];
      } else {
        ClassifiedHole(reqs[..n], final, free, holes, reqs[n]);
        holes := holes + [n];
        final := final + [None];
        free := free + [reqs[n]];
      }
    }
    assert reqs[..|reqs|] == reqs;
  }

  function OnHosts(reqs: seq<Req>, host: string): seq<Req> {
    seq(|reqs|, i requires 0 <= i < |reqs| => OnHost(reqs[i], host))
  }

  /** Fresh copies of the requests, all on one node. */
  method CopyWithThisNodeName(reqs: seq<Req>, host: string) returns (out: seq<Req>)
    ensures out == OnHosts(reqs, host)
  {
    out := [];
    for n := 0 to |reqs|
      invariant out == OnHosts(reqs[..n], host)
    {
      out := out + [OnHost(reqs[n], host)];
    }
    assert reqs[..|reqs|] == reqs;
  }

  // ------------------------------------------------------ fixed requests

  /** The first resource a fixed request refers to and can be served by. */
  method FindReferred(avail: seq<Res>, req: Req) returns (i: nat)
    ensures i == if DOF(req) == 0 then FirstFit(avail, req) else |avail|
  {
    i := 0;
    while i < |avail| && !(RefersToTheSame(avail[i], req) && CanAllocate(avail[i], req))
      invariant 0 <= i <= |avail|
      invariant forall j | 0 <= j < i :: !(DOF(req) == 0 && CanAllocate(avail[j], req))
    {
      i := i + 1;
    }
    if DOF(req) == 0 { FirstFitIs(avail, req, i); }
  }

  /** Put a resource back after serving it, or drop it if it is full. */
  function Serve(rs: seq<Res>, i: nat, grown: Res): seq<Res>
    requires i < |rs|
  {
    if IsFree(grown) then rs[i := grown] else rs[..i] + rs[i + 1..]
  }

  lemma ResolvedAlready(r: Res, q: Req)
    requires CanAllocate(r, q) && DOF(q) == 0
    ensures Resolve(q, r.Key()) == q
  {
  }

  lemma MatchFixedNext(reqs: seq<Req>, n: nat, avail: seq<Res>, uid: nat)
    requires n < |reqs|
    ensures MatchFixed(reqs[n..], avail, uid) ==
              var i := FirstFit(avail, reqs[n]);
              if DOF(reqs[n]) == 0 && i < |avail| then MatchFixed(reqs[n + 1..], Serve(avail, i, Grow(avail[i], reqs[n], uid)), uid) else None
  {
    assert reqs[n..][0] == reqs[n] && reqs[n..][1..] == reqs[n + 1..];
  }

  /** Serve fixed requests from a copy of the available resources; on failure the
      list the caller gave comes back untouched. */
  method ResourceMatchDOF0(reqs: seq<Req>, avail: seq<Res>, uid: nat)
    returns (matched: Option<seq<Req>>, remaining: seq<Res>)
    ensures MatchFixed(reqs, avail, uid) == if matched.Some? then Some(remaining) else None
    ensures if matched.Some? then matched.value == reqs else remaining == avail
  {
    var done := [];
    remaining := avail;
    for n := 0 to |reqs|
      invariant done == reqs[..n]
      invariant MatchFixed(reqs, avail, uid) == MatchFixed(reqs[n..], remaining, uid)
    {
      var req := reqs[n];
      MatchFixedNext(reqs, n, remaining, uid);
      var i := FindReferred(remaining, req);
      if i == |remaining| {
        return None, avail;
      }
      var found := remaining[i];
      ResolvedAlready(found, req);
      req := Resolve(req, found.Key());
      assert reqs[..n + 1] == reqs[..n] + [req];
      done := done + [req];
      remaining := Serve(remaining, i, Grow(found, req, uid));
    }
    assert reqs[..|reqs|] == reqs && reqs[|reqs|..] == [];
    matched := Some(done);
  }

  // ------------------------------------------------------- class lists

  ghost predicate AllOf(rs: seq<Res>, c: ResClass) { forall r <- rs :: r.Key().cls == c }

  /** The available resources of a node, one list a class. */
  datatype ClassLists = ClassLists(gpus: seq<Res>, servers: seq<Res>, keyboards: seq<Res>, mice: seq<Res>, slis: seq<Res>) {
    function Get(c: ResClass): seq<Res> {
      match c case GPU => gpus case Server => servers case Keyboard => keyboards case Mouse => mice case SLI => slis
    }

    function Set(c: ResClass, rs: seq<Res>): ClassLists {
      match c
      case GPU => this.(gpus := rs)
      case Server => this.(servers := rs)
      case Keyboard => this.(keyboards := rs)
      case Mouse => this.(mice := rs)
      case SLI => this.(slis := rs)
    }

    function Flat(): seq<Res> { gpus + servers + keyboards + mice + slis }

    /** What stands before and after the list of one class in Flat. */
    function Before(c: ResClass): seq<Res> {
      match c
      case GPU => []
      case Server => gpus
      case Keyboard => gpus + servers
      case Mouse => gpus + servers + keyboards
      case SLI => gpus + servers + keyboards + mice
    }

    function Behind(c: ResClass): seq<Res> {
      match c
      case GPU => servers + keyboards + mice + slis
      case Server => keyboards + mice + slis
      case Keyboard => mice + slis
      case Mouse => slis
      case SLI => []
    }

    ghost predicate Valid() {
      && AllOf(gpus, GPU) && AllOf(servers, Server) && AllOf(keyboards, Keyboard) && AllOf(mice, Mouse)
      && AllOf(slis, SLI)
    }

    lemma FlatAround(c: ResClass)
      ensures Flat() == Before(c) + Get(c) + Behind(c)
      ensures forall rs :: Set(c, rs).Flat() == Before(c) + rs + Behind(c)
    {
      match c { case GPU => case Server => case Keyboard => case Mouse => case SLI => }
    }

    lemma OthersDiffer(c: ResClass)
      requires Valid()
      ensures forall r <- Before(c) + Behind(c) :: r.Key().cls != c
    {
      match c { case GPU => case Server => case Keyboard => case Mouse => case SLI => }
    }

    lemma SetValid(c: ResClass, rs: seq<Res>)
      requires Valid() && AllOf(rs, c)
      ensures Set(c, rs).Valid()
      ensures Set(c, rs).Get(c) == rs
      ensures forall d: ResClass | d != c :: Set(c, rs).Get(d) == Get(d)
    {
      match c { case GPU => case Server => case Keyboard => case Mouse => case SLI => }
    }
  }

  lemma {:induction false} OfClassAppend(rs: seq<Res>, r: Res, c: ResClass)
    ensures OfClass(rs + [r], c) == OfClass(rs, c) + if r.Key().cls == c then [r] else []
  {
    if rs == [] {
      assert [r][1..] == [];
    } else {
      assert (rs + [r])[0] == rs[0] && (rs + [r])[1..] == rs[1..] + [r];
      OfClassAppend(rs[1..], r, c);
      var first, last := if rs[0].Key().cls == c then [rs[0]] else [], if r.Key().cls == c then [r] else [];
      assert first + (OfClass(rs[1..], c) + last) == (first + OfClass(rs[1..], c)) + last;
    }
  }

  method SplitByClass(remaining: seq<Res>) returns (lists: ClassLists)
    ensures lists.Valid() && lists.Flat() == ByClass(remaining)
  {
    lists := ClassLists([], [], [], [], []);
    for n := 0 to |remaining|
      invariant lists.Valid()
      invariant forall c: ResClass :: lists.Get(c) == OfClass(remaining[..n], c)
    {
      var res := remaining[n];
      var c := res.Key().cls;
      assert remaining[..n + 1] == remaining[..n] + [res];
      forall d: ResClass { OfClassAppend(remaining[..n], res, d); }
      lists.SetValid(c, lists.Get(c) + [res]);
      lists := lists.Set(c, lists.Get(c) + [res]);
    }
    assert remaining[..|remaining|] == remaining;
    assert lists.Get(GPU) == lists.gpus && lists.Get(Server) == lists.servers && lists.Get(Keyboard) == lists.keyboards;
    assert lists.Get(Mouse) == lists.mice && lists.Get(SLI) == lists.slis;
  }

  lemma FirstFitSkips(a: seq<Res>, b: seq<Res>, q: Req)
    requires forall r <- a :: !CanAllocate(r, q)
    ensures FirstFit(a + b, q) == |a| + FirstFit(b, q)
  {
    var i := FirstFit(b, q);
    forall j | 0 <= j < |a| + i
      ensures !CanAllocate((a + b)[j], q)
    {
      if j < |a| { assert a[j] in a; }
    }
    FirstFitIs(a + b, q, |a| + i);
  }

  lemma FirstFitBefore(a: seq<Res>, b: seq<Res>, q: Req)
    requires forall r <- b :: !CanAllocate(r, q)
    ensures FirstFit(a + b, q) == if FirstFit(a, q) < |a| then FirstFit(a, q) else |a + b|
  {
    var i := FirstFit(a, q);
    if i < |a| {
      FirstFitIs(a + b, q, i);
    } else {
      forall j | 0 <= j < |a + b| ensures !CanAllocate((a + b)[j], q) { if j >= |a| { assert b[j - |a|] in b; } }
      FirstFitIs(a + b, q, |a + b|);
    }
  }

  /** First fit over all classes is first fit in the request's class list. */
  lemma FirstFitInClass(lists: ClassLists, q: Req, mi: nat)
    requires lists.Valid() && q.cls.Some?
    requires mi == FirstFit(lists.Get(q.cls.value), q)
    ensures var c := q.cls.value;
            FirstFit(lists.Flat(), q) ==
              if mi < |lists.Get(c)| then |lists.Before(c)| + mi else |lists.Flat()|
  {
    var c := q.cls.value;
    var before, list, behind := lists.Before(c), lists.Get(c), lists.Behind(c);
    lists.FlatAround(c);
    lists.OthersDiffer(c);
    forall r <- before ensures !CanAllocate(r, q) { assert r in before + behind; }
    forall r <- behind ensures !CanAllocate(r, q) { assert r in before + behind; }
    assert before + list + behind == before + (list + behind);
    FirstFitSkips(before, list + behind, q);
    FirstFitBefore(list, behind, q);
  }

  lemma TakeInClass(lists: ClassLists, c: ResClass, mi: nat, q: Req, uid: nat)
    requires lists.Valid() && mi < |lists.Get(c)|
    ensures var lists' := lists.Set(c, TakeAt(lists.Get(c), mi, q, uid));
            && lists'.Valid()
            && |lists.Before(c)| + mi < |lists.Flat()|
            && lists.Flat()[|lists.Before(c)| + mi] == lists.Get(c)[mi]
            && lists'.Flat() == TakeAt(lists.Flat(), |lists.Before(c)| + mi, q, uid)
  {
    var before, list, behind := lists.Before(c), lists.Get(c), lists.Behind(c);
    lists.FlatAround(c);
    assert AllOf(list, c) by { match c { case GPU => case Server => case Keyboard => case Mouse => case SLI => } }
    TakeStaysOf(list, mi, q, uid, c);
    lists.SetValid(c, TakeAt(list, mi, q, uid));
    TakeMiddle(before, list, behind, mi, q, uid);
  }

  lemma TakeStaysOf(list: seq<Res>, mi: nat, q: Req, uid: nat, c: ResClass)
    requires mi < |list| && AllOf(list, c)
    ensures AllOf(TakeAt(list, mi, q, uid), c)
  {
    assert list[mi] in list;
  }

  lemma TakeMiddle(a: seq<Res>, b: seq<Res>, c: seq<Res>, i: nat, q: Req, uid: nat)
    requires i < |b|
    ensures (a + b + c)[|a| + i] == b[i]
    ensures TakeAt(a + b + c, |a| + i, q, uid) == a + TakeAt(b, i, q, uid) + c
  {
    assert (a + b + c)[|a| + i] == b[i];
  }

  // -------------------------------------------------- partly fixed requests

  lemma AfterTwice(a: seq<Req>, b: seq<Req>, m: Match)
    ensures After(a, After(b, m)) == After(a + b, m)
  {
    assert a + (b + m.reqs) == (a + b) + m.reqs;
  }

  /** Positions without freedom are passed over. */
  lemma {:induction false} PassFixed(reqs: seq<Req>, p: nat, p': nat, avail: seq<Res>, uid: nat)
    requires p <= p' <= |reqs|
    requires forall i | p <= i < p' :: DOF(reqs[i]) == 0
    ensures AssignFree(reqs[p..], avail, uid) == After(reqs[p..p'], AssignFree(reqs[p'..], avail, uid))
    decreases p' - p
  {
    if p == p' {
      assert reqs[p..p'] == [];
      assert [] + AssignFree(reqs[p..], avail, uid).reqs == AssignFree(reqs[p..], avail, uid).reqs;
    } else {
      PassFixed(reqs, p + 1, p', avail, uid);
      assert reqs[p..][0] == reqs[p] && reqs[p..][1..] == reqs[p + 1..];
      AfterTwice([reqs[p]], reqs[p + 1..p'], AssignFree(reqs[p'..], avail, uid));
      assert [reqs[p]] + reqs[p + 1..p'] == reqs[p..p'];
    }
  }

  /** Loop state of the matcher: done is final, reqs from p on is still to be matched. */
  ghost predicate InMatch(reqs: seq<Req>, flat0: seq<Res>, uid: nat, done: seq<Req>, p: nat, flat: seq<Res>)
    requires p <= |reqs|
  {
    AssignFree(reqs, flat0, uid) == After(done, AssignFree(reqs[p..], flat, uid))
  }

  /** One round of the matcher: the request at p is served by the first fit. */
  lemma MatchStep(reqs: seq<Req>, flat0: seq<Res>, uid: nat, done: seq<Req>, p: nat, next: nat, flat: seq<Res>)
    requires p < next <= |reqs| && DOF(reqs[p]) != 0 && reqs[p].cls.Some?
    requires forall i | p + 1 <= i < next :: DOF(reqs[i]) == 0
    requires InMatch(reqs, flat0, uid, done, p, flat)
    requires FirstFit(flat, reqs[p]) < |flat|
    ensures var i := FirstFit(flat, reqs[p]);
            var q := Resolve(reqs[p], flat[i].Key());
            InMatch(reqs, flat0, uid, done + ([q] + reqs[p + 1..next]), next, TakeAt(flat, i, q, uid))
  {
    var i := FirstFit(flat, reqs[p]);
    var q := Resolve(reqs[p], flat[i].Key());
    var flat' := TakeAt(flat, i, q, uid);
    assert reqs[p..][0] == reqs[p] && reqs[p..][1..] == reqs[p + 1..];
    PassFixed(reqs, p + 1, next, flat', uid);
    var tail := AssignFree(reqs[next..], flat', uid);
    AfterTwice([q], reqs[p + 1..next], tail);
    AfterTwice(done, [q] + reqs[p + 1..next], tail);
  }

  /** The matcher stops at a request of an unknown class or one nothing fits. */
  lemma MatchStuck(reqs: seq<Req>, flat0: seq<Res>, uid: nat, done: seq<Req>, p: nat, flat: seq<Res>)
    requires p < |reqs| && DOF(reqs[p]) != 0 && InMatch(reqs, flat0, uid, done, p, flat)
    ensures reqs[p].cls.None? ==> AssignFree(reqs, flat0, uid) == Unhandled(done + reqs[p..])
    ensures reqs[p].cls.Some? && FirstFit(flat, reqs[p]) == |flat| ==>
              AssignFree(reqs, flat0, uid) == NoMatch(done + reqs[p..])
  {
    assert reqs[p..][0] == reqs[p];
  }

  lemma MatchDone(reqs: seq<Req>, flat0: seq<Res>, uid: nat, done: seq<Req>, flat: seq<Res>)
    requires InMatch(reqs, flat0, uid, done, |reqs|, flat)
    ensures AssignFree(reqs, flat0, uid) == Matched(done, flat)
  {
    assert reqs[|reqs|..] == [] && done + [] == done;
  }

  /** The fixed requests of a classified list. */
  method DropHoles(reqs: seq<Req>, final: seq<Option<Req>>) returns (fixed: seq<Req>)
    requires |final| == |reqs|
    requires forall i | 0 <= i < |reqs| :: final[i] == if DOF(reqs[i]) == 0 then Some(reqs[i]) else None
    ensures fixed == FixedOf(reqs)
  {
    fixed := [];
    for n := 0 to |final|
      invariant fixed == FixedOf(reqs[..n])
    {
      assert reqs[..n + 1] == reqs[..n] + [reqs[n]];
      FixedOfAppend(reqs[..n], reqs[n]);
      if final[n].Some? { fixed := fixed + [final[n].value]; }
    }
    assert reqs[..|reqs|] == reqs;
  }

  /** Serve one request from the list of its class, the first resource that fits. */
  method FirstInClass(res: Req, lists: ClassLists, uid: nat) returns (found: Option<Req>, lists': ClassLists)
    requires lists.Valid() && res.cls.Some?
    ensures lists'.Valid()
    ensures var i := FirstFit(lists.Flat(), res);
            if i == |lists.Flat()| then found.None? && lists' == lists
            else
              var q := Resolve(res, lists.Flat()[i].Key());
              found == Some(q) && lists'.Flat() == TakeAt(lists.Flat(), i, q, uid)
  {
    var c := res.cls.value;
    var ar := lists.Get(c);
    var mi := 0;
    while mi < |ar| && !CanAllocate(ar[mi], res)
      invariant 0 <= mi <= |ar|
      invariant forall j | 0 <= j < mi :: !CanAllocate(ar[j], res)
    {
      mi := mi + 1;
    }
    FirstFitIs(ar, res, mi);
    FirstFitInClass(lists, res, mi);
    if mi == |ar| {
      return None, lists;
    }
    var chosen := ar[mi];
    var q := Resolve(res, chosen.Key());
    TakeInClass(lists, c, mi, q, uid);
    var left := Serve(ar, mi, Grow(chosen, q, uid));
    assert left == TakeAt(ar, mi, q, uid);
    lists' := lists.Set(c, left);
    found := Some(q);
  }

  function HoleAt(reqs: seq<Req>, holes: seq<nat>, n: nat): nat {
    if n < |holes| then holes[n] else |reqs|
  }

  /** Between two holes all is fixed. */
  lemma GapIsFixed(reqs: seq<Req>, holes: seq<nat>, n: nat)
    requires HolesOf(reqs, holes) && n <= |holes|
    ensures n < |holes| ==> HoleAt(reqs, holes, n) < HoleAt(reqs, holes, n + 1) <= |reqs|
    ensures forall i | (if n == 0 then 0 else holes[n - 1] + 1) <= i < HoleAt(reqs, holes, n) :: DOF(reqs[i]) == 0
  {
    forall i | (if n == 0 then 0 else holes[n - 1] + 1) <= i < HoleAt(reqs, holes, n)
      ensures DOF(reqs[i]) == 0
    {
      if DOF(reqs[i]) != 0 {
        var j :| 0 <= j < |holes| && holes[j] == i;
        assert false;
      }
    }
  }

  lemma {:induction false} FreeOfConcat(a: seq<Req>, b: seq<Req>)
    ensures FreeOf(a + b) == FreeOf(a) + FreeOf(b)
  {
    if a == [] {
      assert a + b == b;
    } else {
      assert (a + b)[0] == a[0] && (a + b)[1..] == a[1..] + b;
      FreeOfConcat(a[1..], b);
    }
  }

  lemma {:induction false} NothingFree(reqs: seq<Req>)
    requires forall i | 0 <= i < |reqs| :: DOF(reqs[i]) == 0
    ensures FreeOf(reqs) == []
  {
    if reqs != [] {
      assert forall i | 0 <= i < |reqs[1..]| :: reqs[1..][i] == reqs[i + 1];
      NothingFree(reqs[1..]);
    }
  }

  /** Before the j-th hole there are j requests with freedom. */
  lemma {:induction false} HoleRank(reqs: seq<Req>, holes: seq<nat>, j: nat)
    requires HolesOf(reqs, holes) && j < |holes|
    ensures |FreeOf(reqs[..holes[j]])| == j
  {
    GapIsFixed(reqs, holes, j);
    if j == 0 {
      NothingFree(reqs[..holes[0]]);
    } else {
      var h := holes[j - 1];
      HoleRank(reqs, holes, j - 1);
      NothingFree(reqs[h + 1..holes[j]]);
      assert reqs[..holes[j]] == (reqs[..h] + [reqs[h]]) + reqs[h + 1..holes[j]];
      FreeOfConcat(reqs[..h] + [reqs[h]], reqs[h + 1..holes[j]]);
      FreeOfAppend(reqs[..h], reqs[h]);
    }
  }

  /** Loop state of the matcher after n holes: live has the picks so far. */
  ghost predicate Matching(reqs: seq<Req>, holes: seq<nat>, flat0: seq<Res>, uid: nat, live: seq<Req>, n: nat, flat: seq<Res>)
    requires n <= |holes|
  {
    var p := HoleAt(reqs, holes, n);
    && |live| == |reqs| && p <= |reqs| && live[p..] == reqs[p..]
    && InMatch(reqs, flat0, uid, live[..p], p, flat)
  }

  lemma MatchingStops(reqs: seq<Req>, holes: seq<nat>, flat0: seq<Res>, uid: nat, live: seq<Req>, n: nat, flat: seq<Res>)
    requires HolesOf(reqs, holes) && n < |holes| && Matching(reqs, holes, flat0, uid, live, n, flat)
    ensures holes[n] < |reqs|
    ensures reqs[holes[n]].cls.None? ==> AssignFree(reqs, flat0, uid) == Unhandled(live)
    ensures reqs[holes[n]].cls.Some? && FirstFit(flat, reqs[holes[n]]) == |flat| ==> AssignFree(reqs, flat0, uid) == NoMatch(live)
  {
    var p := holes[n];
    MatchStuck(reqs, flat0, uid, live[..p], p, flat);
    assert live == live[..p] + reqs[p..];
  }

  lemma MatchingNext(reqs: seq<Req>, holes: seq<nat>, flat0: seq<Res>, uid: nat, live: seq<Req>, n: nat, flat: seq<Res>)
    requires HolesOf(reqs, holes) && n < |holes| && Matching(reqs, holes, flat0, uid, live, n, flat)
    requires reqs[holes[n]].cls.Some? && FirstFit(flat, reqs[holes[n]]) < |flat|
    ensures var p, i := holes[n], FirstFit(flat, reqs[holes[n]]);
            var q := Resolve(reqs[p], flat[i].Key());
            Matching(reqs, holes, flat0, uid, live[p := q], n + 1, TakeAt(flat, i, q, uid))
  {
    var p, next := holes[n], HoleAt(reqs, holes, n + 1);
    var q := Resolve(reqs[p], flat[FirstFit(flat, reqs[p])].Key());
    GapIsFixed(reqs, holes, n);
    GapIsFixed(reqs, holes, n + 1);
    MatchStep(reqs, flat0, uid, live[..p], p, next, flat);
    WriteHole(reqs, live, p, next, q);
  }

  /** First fit for the requests with freedom, writing each pick into its place. */
  method MatchHoles(reqs: seq<Req>, free: seq<Req>, holes: seq<nat>, lists0: ClassLists, uid: nat) returns (m: Match)
    requires HolesOf(reqs, holes) && |free| == |holes| && lists0.Valid()
    requires forall j | 0 <= j < |holes| :: free[j] == reqs[holes[j]]
    ensures m == AssignFree(reqs, lists0.Flat(), uid)
  {
    var lists, live := lists0, reqs;
    MatchStart(reqs, holes, lists0.Flat(), uid);
    for n := 0 to |free|
      invariant lists.Valid() && Matching(reqs, holes, lists0.Flat(), uid, live, n, lists.Flat())
    {
      var res := free[n];
      MatchingStops(reqs, holes, lists0.Flat(), uid, live, n, lists.Flat());
      if res.cls.None? {
        return Unhandled(live);
      }
      var found, lists' := FirstInClass(res, lists, uid);
      if found.None? {
        return NoMatch(live);
      }
      MatchingNext(reqs, holes, lists0.Flat(), uid, live, n, lists.Flat());
      live := live[holes[n] := found.value];
      lists := lists';
    }
    assert live[..|reqs|] == live;
    MatchDone(reqs, lists0.Flat(), uid, live[..|reqs|], lists.Flat());
    m := Matched(live, lists.Flat());
  }

  lemma MatchStart(reqs: seq<Req>, holes: seq<nat>, flat: seq<Res>, uid: nat)
    requires HolesOf(reqs, holes)
    ensures HoleAt(reqs, holes, 0) <= |reqs|
    ensures InMatch(reqs, flat, uid, reqs[..HoleAt(reqs, holes, 0)], HoleAt(reqs, holes, 0), flat)
  {
    GapIsFixed(reqs, holes, 0);
    PassFixed(reqs, 0, HoleAt(reqs, holes, 0), flat, uid);
    assert reqs[0..] == reqs;
  }

  lemma WriteHole(reqs: seq<Req>, live: seq<Req>, p: nat, next: nat, q: Req)
    requires |live| == |reqs| && p < next <= |reqs| && live[p..] == reqs[p..]
    ensures live[p := q][..next] == live[..p] + ([q] + reqs[p + 1..next])
    ensures live[p := q][next..] == reqs[next..]
  {
    assert forall i | p <= i < |reqs| :: live[i] == live[p..][i - p] == reqs[p..][i - p] == reqs[i];
  }

  /** Match requests, all on the host of the available resources, some of them
      with an index. The requests returned are the caller's own after the call:
      each one matched has its index written in, even if a later one fails. */
  method ResourceMatchDOF2(reqs: seq<Req>, avail: seq<Res>, uid: nat) returns (m: Match)
    ensures m == MatchPartly(reqs, avail, uid)
  {
    var final, toBeMatched, holes := ClassifyRes(reqs);
    var dof0only := DropHoles(reqs, final);
    var dof0match, remaining := ResourceMatchDOF0(dof0only, avail, uid);
    if dof0match.None? {
      return NoMatch(reqs);
    }
    var lists := SplitByClass(remaining);
    m := MatchHoles(reqs, toBeMatched, holes, lists, uid);
  }
}
