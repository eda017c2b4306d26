/** When first fit must succeed. For interchangeable requests greedy choice loses
    nothing: it fails only when there is no room left at all. For two requests that
    differ it is said exactly when it does lose. */
module Capacity {
  import opened Resources
  import opened Ledger
  import opened Matchers

  /** How many more requests like q a resource could serve. */
  function Slots(r: Res, q: Req): int {
    if !TypeSearchMatch(r.attrs, q) then 0
    else if q.shared then (if r.shared || r.owners == [] then r.attrs.limit - |r.owners| else 0)
    else if !r.shared && r.owners == [] then 1 else 0
  }

  function Capacity(rs: seq<Res>, q: Req): int {
    if rs == [] then 0 else Slots(rs[0], q) + Capacity(rs[1..], q)
  }

  function Repeat(q: Req, n: nat): seq<Req> { seq(n, _ => q) }

  lemma SlotsMeanFit(r: Res, q: Req)
    requires Safe(r)
    ensures 0 <= Slots(r, q)
    ensures 0 < Slots(r, q) <==> CanAllocate(r, q)
  {
  }

  /** Serving one request uses up exactly one slot, and a resource leaves the
      list only with its last slot. */
  lemma ServingUsesOneSlot(r: Res, q: Req, uid: nat)
    requires Safe(r) && CanAllocate(r, q)
    ensures var r' := Grow(r, Resolve(q, r.Key()), uid);
            && Safe(r') && Slots(r', q) == Slots(r, q) - 1 && (!IsFree(r') ==> Slots(r, q) == 1)
  {
    assert CanAllocate(r, Resolve(q, r.Key()));
    GrowSafe(r, Resolve(q, r.Key()), uid);
  }

  ghost predicate AllSafe(rs: seq<Res>) { forall r <- rs :: Safe(r) }

  lemma {:induction false} CapacityConcat(a: seq<Res>, b: seq<Res>, q: Req)
    ensures Capacity(a + b, q) == Capacity(a, q) + Capacity(b, q)
  {
    if a == [] {
      assert a + b == b;
    } else {
      assert (a + b)[0] == a[0] && (a + b)[1..] == a[1..] + b;
      CapacityConcat(a[1..], b, q);
    }
  }

  lemma {:induction false} CapacityIsRoom(rs: seq<Res>, q: Req)
    requires AllSafe(rs)
    ensures 0 <= Capacity(rs, q)
    ensures FirstFit(rs, q) < |rs| <==> 0 < Capacity(rs, q)
  {
    if rs != [] {
      assert rs[0] in rs;
      SlotsMeanFit(rs[0], q);
      CapacityIsRoom(rs[1..], q);
    }
  }

  lemma TakingUsesOneSlot(rs: seq<Res>, i: nat, q: Req, uid: nat)
    requires AllSafe(rs) && i < |rs| && CanAllocate(rs[i], q)
    ensures var rs' := TakeAt(rs, i, Resolve(q, rs[i].Key()), uid);
            AllSafe(rs') && Capacity(rs', q) == Capacity(rs, q) - 1
  {
    assert rs[i] in rs;
    ServingUsesOneSlot(rs[i], q, uid);
    PutBackCounts(rs, i, Grow(rs[i], Resolve(q, rs[i].Key()), uid), q);
    PutBackSafe(rs, i, Grow(rs[i], Resolve(q, rs[i].Key()), uid));
  }

  /** The list with one resource put back after it was served, or dropped if it is full. */
  function PutBack(rs: seq<Res>, i: nat, r: Res): seq<Res>
    requires i < |rs|
  {
    if IsFree(r) then rs[i := r] else rs[..i] + rs[i + 1..]
  }

  lemma PutBackSafe(rs: seq<Res>, i: nat, r: Res)
    requires i < |rs| && AllSafe(rs) && Safe(r)
    ensures AllSafe(PutBack(rs, i, r))
  {
    forall s <- PutBack(rs, i, r) ensures Safe(s) { assert s == r || s in rs; }
  }

  lemma PutBackCounts(rs: seq<Res>, i: nat, r: Res, q: Req)
    requires i < |rs| && (IsFree(r) || Capacity([r], q) == 0)
    ensures Capacity(PutBack(rs, i, r), q) == Capacity(rs, q) - Capacity([rs[i]], q) + Capacity([r], q)
  {
    var before, after := rs[..i], rs[i + 1..];
    assert rs == before + ([rs[i]] + after);
    CapacityAround(before, rs[i], after, q);
    CapacityConcat(before, after, q);
    if IsFree(r) {
      assert PutBack(rs, i, r) == before + ([r] + after);
      CapacityAround(before, r, after, q);
    }
  }

  lemma CapacityAround(before: seq<Res>, r: Res, after: seq<Res>, q: Req)
    ensures Capacity(before + ([r] + after), q) == Capacity(before, q) + Slots(r, q) + Capacity(after, q)
  {
    CapacityConcat(before, [r] + after, q);
    CapacityConcat([r], after, q);
    assert [r][1..] == [];
  }

  lemma {:induction false} SameRequestsAssigned(q: Req, n: nat, rs: seq<Res>, uid: nat)
    requires AllSafe(rs) && DOF(q) != 0 && q.cls.Some?
    ensures AssignFree(Repeat(q, n), rs, uid).Matched? <==> n <= Capacity(rs, q)
    decreases n
  {
    CapacityIsRoom(rs, q);
    if n > 0 {
      assert Repeat(q, n)[1..] == Repeat(q, n - 1);
      var i := FirstFit(rs, q);
      if i < |rs| {
        TakingUsesOneSlot(rs, i, q, uid);
        SameRequestsAssigned(q, n - 1, TakeAt(rs, i, Resolve(q, rs[i].Key()), uid), uid);
      }
    }
  }

  lemma {:induction false} CapacityOfClass(rs: seq<Res>, c: ResClass, q: Req)
    ensures Capacity(OfClass(rs, c), q) == if q.cls == Some(c) then Capacity(rs, q) else 0
  {
    if rs != [] {
      CapacityOfClass(rs[1..], c, q);
      CapacityConcat(if rs[0].Key().cls == c then [rs[0]] else [], OfClass(rs[1..], c), q);
      assert rs[0].Key().cls == c ==> Capacity([rs[0]], q) == Slots(rs[0], q);
    }
  }

  lemma CapacityByClass(rs: seq<Res>, q: Req)
    requires q.cls.Some?
    ensures Capacity(ByClass(rs), q) == Capacity(rs, q)
  {
    var a, b, c, d, e := OfClass(rs, GPU), OfClass(rs, Server), OfClass(rs, Keyboard), OfClass(rs, Mouse), OfClass(rs, SLI);
    CapacityConcat(a + b + c + d, e, q);
    CapacityConcat(a + b + c, d, q);
    CapacityConcat(a + b, c, q);
    CapacityConcat(a, b, q);
    CapacityOfClass(rs, GPU, q);
    CapacityOfClass(rs, Server, q);
    CapacityOfClass(rs, Keyboard, q);
    CapacityOfClass(rs, Mouse, q);
    CapacityOfClass(rs, SLI, q);
    match q.cls.value {
      case GPU => case Server => case Keyboard => case Mouse => case SLI =>
    }
  }

  lemma {:induction false} NoFixedAmongSame(q: Req, n: nat)
    requires DOF(q) != 0
    ensures FixedOf(Repeat(q, n)) == []
  {
    if n > 0 {
      assert Repeat(q, n)[1..] == Repeat(q, n - 1);
      NoFixedAmongSame(q, n - 1);
    }
  }

  /** n equal requests, all exclusive or all shared, are matched exactly when the
      available resources have at least n slots for them. */
  lemma FirstFitCompleteForSame(q: Req, n: nat, avail: seq<Res>, uid: nat)
    requires AllSafe(avail) && DOF(q) != 0 && q.cls.Some?
    ensures MatchPartly(Repeat(q, n), avail, uid).Matched? <==> n <= Capacity(avail, q)
  {
    NoFixedAmongSame(q, n);
    ByClassMembers(avail);
    SameRequestsAssigned(q, n, ByClass(avail), uid);
    CapacityByClass(avail, q);
  }

  // ------------------------------------------------ interchangeable requests

  /** Requests that leave the allocator a choice, all exclusive or all shared, that the
      same resources can serve, whatever they are called and ask for. */
  ghost predicate Interchangeable(qs: seq<Req>, rs: seq<Res>) {
    && (forall q <- qs :: DOF(q) != 0 && q.cls.Some?)
    && (forall p <- qs, q <- qs :: p.shared == q.shared && forall r <- rs :: CanAllocate(r, p) <==> CanAllocate(r, q))
  }

  lemma {:induction false} SameCapacity(p: Req, q: Req, rs: seq<Res>)
    requires AllSafe(rs) && p.shared == q.shared && forall r <- rs :: CanAllocate(r, p) <==> CanAllocate(r, q)
    ensures Capacity(rs, p) == Capacity(rs, q)
  {
    if rs != [] {
      assert rs[0] in rs;
      SlotsMeanFit(rs[0], p);
      SlotsMeanFit(rs[0], q);
      SameCapacity(p, q, rs[1..]);
    }
  }

  /** The requests that are left are interchangeable on what is left. */
  lemma StaysInterchangeable(qs: seq<Req>, rs: seq<Res>, i: nat, uid: nat)
    requires qs != [] && AllSafe(rs) && Interchangeable(qs, rs) && i < |rs| && CanAllocate(rs[i], qs[0])
    ensures Interchangeable(qs[1..], TakeAt(rs, i, Resolve(qs[0], rs[i].Key()), uid))
  {
    var g, rs' := Resolve(qs[0], rs[i].Key()), TakeAt(rs, i, Resolve(qs[0], rs[i].Key()), uid);
    var r' := Grow(rs[i], g, uid);
    assert rs[i] in rs && qs[0] in qs && Safe(rs[i]);
    forall p <- qs[1..], q <- qs[1..]
      ensures p.shared == q.shared && forall r <- rs' :: CanAllocate(r, p) <==> CanAllocate(r, q)
    {
      assert p in qs && q in qs;
      forall r <- rs'
        ensures CanAllocate(r, p) <==> CanAllocate(r, q)
      {
        if r == r' && IsFree(r') {
          assert CanAllocate(rs[i], p) && CanAllocate(rs[i], q) && CanAllocate(rs[i], qs[0]);
          assert p.shared == qs[0].shared == q.shared;
        } else {
          assert r in rs;
        }
      }
    }
  }

  lemma {:induction false} InterchangeableAssigned(qs: seq<Req>, rs: seq<Res>, uid: nat)
    requires AllSafe(rs) && Interchangeable(qs, rs)
    ensures AssignFree(qs, rs, uid).Matched? <==> qs == [] || |qs| <= Capacity(rs, qs[0])
    decreases |qs|
  {
    if qs != [] {
      var i := FirstFit(rs, qs[0]);
      assert qs[0] in qs;
      CapacityIsRoom(rs, qs[0]);
      if i < |rs| {
        var rs' := TakeAt(rs, i, Resolve(qs[0], rs[i].Key()), uid);
        TakingUsesOneSlot(rs, i, qs[0], uid);
        StaysInterchangeable(qs, rs, i, uid);
        InterchangeableAssigned(qs[1..], rs', uid);
        if |qs| > 1 { LaterCapacity(qs, rs, i, uid); }
      }
    }
  }

  /** What is left has as much room for the next request as for the one just served. */
  lemma LaterCapacity(qs: seq<Req>, rs: seq<Res>, i: nat, uid: nat)
    requires |qs| > 1 && AllSafe(rs) && Interchangeable(qs, rs) && i < |rs| && CanAllocate(rs[i], qs[0])
    ensures Capacity(TakeAt(rs, i, Resolve(qs[0], rs[i].Key()), uid), qs[1]) == Capacity(rs, qs[0]) - 1
  {
    assert qs[0] in qs && qs[1] in qs;
    TakingUsesOneSlot(rs, i, qs[1], uid);
    SameCapacity(qs[0], qs[1], rs);
    assert Grow(rs[i], Resolve(qs[0], rs[i].Key()), uid) == Grow(rs[i], Resolve(qs[1], rs[i].Key()), uid);
  }

  lemma {:induction false} NoFixedAmong(qs: seq<Req>)
    requires forall q <- qs :: DOF(q) != 0
    ensures FixedOf(qs) == []
  {
    if qs != [] {
      assert qs[0] in qs;
      NoFixedAmong(qs[1..]);
    }
  }

  /** First fit loses nothing on interchangeable requests: they are matched exactly if
      there are no more of them than slots left for any one of them. */
  lemma FirstFitCompleteForInterchangeable(qs: seq<Req>, avail: seq<Res>, uid: nat)
    requires AllSafe(avail) && qs != [] && Interchangeable(qs, avail)
    ensures MatchPartly(qs, avail, uid).Matched? <==> |qs| <= Capacity(avail, qs[0])
    ensures forall q <- qs :: Capacity(avail, q) == Capacity(avail, qs[0])
  {
    assert qs[0] in qs;
    NoFixedAmong(qs);
    ByClassMembers(avail);
    InterchangeableAssigned(qs, ByClass(avail), uid);
    CapacityByClass(avail, qs[0]);
    forall q <- qs ensures Capacity(avail, q) == Capacity(avail, qs[0]) { SameCapacity(q, qs[0], avail); }
  }

  // --------------------------------------------------- two requests that differ

  /** Two exclusive requests can be served by two different resources. */
  ghost predicate Servable(p: Req, q: Req, rs: seq<Res>) {
    exists i, j | 0 <= i < |rs| && 0 <= j < |rs| && i != j :: CanAllocate(rs[i], p) && CanAllocate(rs[j], q)
  }

  /** The first resource that accepts p is the only one that accepts q, though another
      one accepts p. */
  ghost predicate FirstIsOnly(p: Req, q: Req, rs: seq<Res>) {
    var f := FirstFit(rs, p);
    && f < |rs| && CanAllocate(rs[f], q) && (forall j | 0 <= j < |rs| && j != f :: !CanAllocate(rs[j], q))
    && exists i :: 0 <= i < |rs| && i != f && CanAllocate(rs[i], p)
  }

  lemma SecondAssigned(p: Req, q: Req, rs: seq<Res>, uid: nat)
    requires AllSafe(rs) && DOF(p) != 0 && DOF(q) != 0 && p.cls.Some? && q.cls.Some? && !p.shared && !q.shared
    ensures var f := FirstFit(rs, p);
            AssignFree([p, q], rs, uid).Matched? <==> f < |rs| && exists j :: 0 <= j < |rs| && j != f && CanAllocate(rs[j], q)
  {
    var f := FirstFit(rs, p);
    assert [p, q][1..] == [q];
    if f < |rs| {
      assert rs[f] in rs && !IsFree(Grow(rs[f], Resolve(p, rs[f].Key()), uid));
      LastAssigned(q, rs[..f] + rs[f + 1..], uid);
      FitsElsewhere(rs, f, q);
    }
  }

  lemma LastAssigned(q: Req, rs: seq<Res>, uid: nat)
    requires DOF(q) != 0 && q.cls.Some?
    ensures AssignFree([q], rs, uid).Matched? <==> FirstFit(rs, q) < |rs|
  {
    assert [q][1..] == [];
  }

  /** Something else than resource f is left for q. */
  lemma FitsElsewhere(rs: seq<Res>, f: nat, q: Req)
    requires f < |rs|
    ensures FirstFit(rs[..f] + rs[f + 1..], q) < |rs| - 1 <==> exists j :: 0 <= j < |rs| && j != f && CanAllocate(rs[j], q)
  {
    var rest := rs[..f] + rs[f + 1..];
    var k := FirstFit(rest, q);
    if k < |rest| {
      var j := if k < f then k else k + 1;
      assert rest[k] == rs[j];
    }
    forall j | 0 <= j < |rs| && j != f && CanAllocate(rs[j], q)
      ensures k < |rest|
    {
      assert rest[if j < f then j else j - 1] == rs[j];
    }
  }

  /** First fit refuses a pair of exclusive requests that could be served exactly if the
      first free resource that accepts the first request is the only one that accepts
      the second, while another would have done for the first. */
  lemma PairRefusedExactly(p: Req, q: Req, avail: seq<Res>, uid: nat)
    requires AllSafe(avail) && DOF(p) != 0 && DOF(q) != 0 && p.cls.Some? && q.cls.Some? && !p.shared && !q.shared
    ensures Servable(p, q, ByClass(avail)) && !MatchPartly([p, q], avail, uid).Matched? <==> FirstIsOnly(p, q, ByClass(avail))
  {
    var rs := ByClass(avail);
    ByClassMembers(avail);
    NoneFixed(p, q);
    SecondAssigned(p, q, rs, uid);
    var f := FirstFit(rs, p);
    if FirstIsOnly(p, q, rs) {
      var i :| 0 <= i < |rs| && i != f && CanAllocate(rs[i], p);
      assert CanAllocate(rs[i], p) && CanAllocate(rs[f], q);
    }
  }

  // ------------------------------------------------------------- an example

  function AnyGpu(host: string): Req { Req(Some(GPU), None, Some(host), None, false, None, None) }

  function ModelGpu(host: string): Req { AnyGpu(host).(typ := Some("Quadro FX 5800")) }

  function BigGpu(host: string): Res {
    Res(Attrs(Key(GPU, 0, host), Some("Quadro FX 5800"), 1, 0, None, None, 0, None), [], false, [])
  }

  function SmallGpu(host: string): Res {
    Res(Attrs(Key(GPU, 1, host), Some("Quadro FX 1800"), 1, 0, None, None, 0, None), [], false, [])
  }

  lemma TwoGpus(host: string)
    ensures ByClass([BigGpu(host), SmallGpu(host)]) == [BigGpu(host), SmallGpu(host)]
    ensures CanAllocate(BigGpu(host), AnyGpu(host)) && CanAllocate(BigGpu(host), ModelGpu(host))
    ensures CanAllocate(SmallGpu(host), AnyGpu(host)) && !CanAllocate(SmallGpu(host), ModelGpu(host))
  {
    var a, b := BigGpu(host), SmallGpu(host);
    assert "Quadro FX 5800"[10] != "Quadro FX 1800"[10];
    OfClassPair(a, b, GPU);
    OfClassPair(a, b, Server);
    OfClassPair(a, b, Keyboard);
    OfClassPair(a, b, Mouse);
    OfClassPair(a, b, SLI);
  }

  lemma OfClassPair(a: Res, b: Res, c: ResClass)
    ensures OfClass([a, b], c) == (if a.Key().cls == c then [a] else []) + (if b.Key().cls == c then [b] else [])
  {
    assert [a, b][1..] == [b] && [b][1..] == [];
    assert OfClass([b], c) == if b.Key().cls == c then [b] else [];
  }

  lemma NoneFixed(p: Req, q: Req)
    requires DOF(p) != 0 && DOF(q) != 0
    ensures FixedOf([p, q]) == []
  {
    assert [p, q][1..] == [q] && [q][1..] == [];
    assert FixedOf([q]) == [];
  }

  lemma PairAssigned(p: Req, q: Req, a: Res, b: Res, uid: nat)
    requires DOF(p) != 0 && DOF(q) != 0 && p.cls.Some? && q.cls.Some?
    requires CanAllocate(a, p) && a.attrs.limit == 1 && !a.shared && a.owners == [] && ByClass([a, b]) == [a, b]
    ensures MatchPartly([p, q], [a, b], uid).Matched? <==> CanAllocate(b, q)
    ensures MatchPartly([p, q], [a, b], uid).NoMatch? <==> !CanAllocate(b, q)
  {
    assert [p, q][1..] == [q] && [q][1..] == [];
    NoneFixed(p, q);
    FirstFitIs([a, b], p, 0);
    assert TakeAt([a, b], 0, Resolve(p, a.Key()), uid) == [b];
    FirstFitIs([b], q, if CanAllocate(b, q) then 0 else 1);
    assert AssignFree([q], [b], uid).Matched? <==> CanAllocate(b, q);
    assert AssignFree([q], [b], uid).NoMatch? <==> !CanAllocate(b, q);
  }

  /** Requests that differ can defeat first fit although another choice serves
      them: a request for any GPU takes the only GPU of the model asked for next. */
  lemma FirstFitIncompleteForMixed(host: string)
    ensures MatchPartly([AnyGpu(host), ModelGpu(host)], [BigGpu(host), SmallGpu(host)], 0).NoMatch?
    ensures MatchPartly([ModelGpu(host), AnyGpu(host)], [BigGpu(host), SmallGpu(host)], 0).Matched?
  {
    TwoGpus(host);
    PairAssigned(AnyGpu(host), ModelGpu(host), BigGpu(host), SmallGpu(host), 0);
    PairAssigned(ModelGpu(host), AnyGpu(host), BigGpu(host), SmallGpu(host), 0);
  }
}
