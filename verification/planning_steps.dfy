/** Planning as the allocator runs it: loops over dictionaries and lists of copies,
    each proved to compute what Planner specifies. */
module PlanningSteps {
  import opened Resources
  import opened Ledger
  import opened Matchers
  import opened MatchingSteps
  import opened Planner

  // ------------------------------------------------------------- host names

  lemma {:induction false} FirstHostAppend(reqs: seq<Req>, q: Req)
    ensures FirstHost(reqs + [q]) == if FirstHost(reqs).Some? then FirstHost(reqs) else q.host
  {
    if reqs == [] {
      assert [q][1..] == [];
    } else {
      assert (reqs + [q])[0] == reqs[0] && (reqs + [q])[1..] == reqs[1..] + [q];
      FirstHostAppend(reqs[1..], q);
    }
  }

  /** The host names of a list, each once. */
  method HostNames(reqs: seq<Req>) returns (names: seq<string>)
    ensures names == [] <==> FirstHost(reqs).None?
    ensures names != [] ==> names[0] == FirstHost(reqs).value
    ensures |names| <= 1 <==> OneHost(reqs)
  {
    names := [];
    for n := 0 to |reqs|
      invariant forall i | 0 <= i < n && reqs[i].host.Some? :: reqs[i].host.value in names
      invariant forall h <- names :: exists i | 0 <= i < n :: reqs[i].host == Some(h)
      invariant forall i, j | 0 <= i < j < |names| :: names[i] != names[j]
      invariant FirstHost(reqs[..n]) == if names == [] then None else Some(names[0])
    {
      assert reqs[..n + 1] == reqs[..n] + [reqs[n]];
      FirstHostAppend(reqs[..n], reqs[n]);
      if reqs[n].host.Some? && reqs[n].host.value !in names {
        names := names + [reqs[n].host.value];
      }
    }
    assert reqs[..|reqs|] == reqs;
    if |names| > 1 {
      assert names[1] in names;
      var i :| 0 <= i < |reqs| && reqs[i].host == Some(names[1]);
      assert reqs[i] in reqs;
    }
  }

  /** Refuse lists over several hosts that are not fixed; paste a single host name
      into the whole list. */
  method PasteHostNames(groups: seq<Group>) returns (o: Outcome<seq<Group>>)
    ensures o == if exists g <- groups :: g.Reqs? && !WellHosted(g.reqs) then Raised(BadRequest)
                 else Done(PasteAll(groups))
  {
    var pasted := [];
    for n := 0 to |groups|
      invariant pasted == PasteAll(groups[..n])
      invariant forall i | 0 <= i < n && groups[i].Reqs? :: WellHosted(groups[i].reqs)
    {
      match groups[n] {
        case Node(_, _) =>
          pasted := pasted + [groups[n]];
        case Reqs(reqs) =>
          var names := HostNames(reqs);
          var fixed := DropHolesCount(reqs);
          if |names| > 1 && fixed != |reqs| {
            assert groups[n] in groups;
            return Raised(BadRequest);
          }
          if |names| == 1 {
            var moved := CopyWithThisNodeName(reqs, names[0]);
            pasted := pasted + [Reqs(moved)];
          } else {
            pasted := pasted + [Reqs(reqs)];
          }
      }
    }
    assert groups[..|groups|] == groups;
    o := Done(pasted);
  }

  /** How many requests of a list are fixed. */
  method DropHolesCount(reqs: seq<Req>) returns (n: nat)
    ensures n == |reqs| <==> forall q <- reqs :: DOF(q) == 0
  {
    n := 0;
    for i := 0 to |reqs|
      invariant n <= i
      invariant n == i <==> forall j | 0 <= j < i :: DOF(reqs[j]) == 0
    {
      if DOF(reqs[i]) == 0 { n := n + 1; }
    }
  }

  // ---------------------------------------------------------- fixed requests

  /** What the hash key of a request is made of. */
  datatype Target = Target(cls: Option<ResClass>, idx: Option<int>, host: Option<string>)

  function TargetOf(q: Req): Target { Target(q.cls, q.idx, q.host) }

  /** How often a resource is requested, first by whom, and how often as shared. */
  datatype Use = Use(count: nat, first: Req, shares: nat)

  function CountOf(qs: seq<Req>, at: Target): nat {
    if qs == [] then 0 else (if TargetOf(qs[0]) == at then 1 else 0) + CountOf(qs[1..], at)
  }

  function SharesOf(qs: seq<Req>, at: Target): nat {
    if qs == [] then 0 else (if TargetOf(qs[0]) == at && qs[0].shared then 1 else 0) + SharesOf(qs[1..], at)
  }

  lemma {:induction false} CountAppend(ps: seq<Req>, qs: seq<Req>, at: Target)
    ensures CountOf(ps + qs, at) == CountOf(ps, at) + CountOf(qs, at)
    ensures SharesOf(ps + qs, at) == SharesOf(ps, at) + SharesOf(qs, at)
  {
    if ps == [] {
      assert ps + qs == qs;
    } else {
      assert (ps + qs)[0] == ps[0] && (ps + qs)[1..] == ps[1..] + qs;
      CountAppend(ps[1..], qs, at);
    }
  }

  lemma {:induction false} AllShares(qs: seq<Req>, at: Target)
    ensures SharesOf(qs, at) <= CountOf(qs, at)
    ensures SharesOf(qs, at) == CountOf(qs, at) <==> forall q <- qs :: TargetOf(q) == at ==> q.shared
  {
    if qs != [] {
      AllShares(qs[1..], at);
      assert qs == [qs[0]] + qs[1..];
    }
  }

  lemma {:induction false} SomeCount(qs: seq<Req>, at: Target)
    ensures CountOf(qs, at) > 0 <==> exists i | 0 <= i < |qs| :: TargetOf(qs[i]) == at
  {
    if qs != [] {
      SomeCount(qs[1..], at);
      if i :| 0 <= i < |qs[1..]| && TargetOf(qs[1..][i]) == at { assert TargetOf(qs[i + 1]) == at; }
      if i :| 0 <= i < |qs| && TargetOf(qs[i]) == at { assert i > 0 ==> TargetOf(qs[1..][i - 1]) == at; }
    }
  }

  /** Counted more than once: there is another one. */
  lemma CountedTwice(qs: seq<Req>, i: nat)
    requires i < |qs|
    ensures CountOf(qs, TargetOf(qs[i])) > 1
       <==> exists j | 0 <= j < |qs| :: j != i && TargetOf(qs[j]) == TargetOf(qs[i])
  {
    var at, before, after := TargetOf(qs[i]), qs[..i], qs[i + 1..];
    assert qs == before + ([qs[i]] + after);
    CountAppend(before, [qs[i]] + after, at);
    CountAppend([qs[i]], after, at);
    assert CountOf([qs[i]], at) == 1;
    SomeCount(before, at);
    SomeCount(after, at);
    if j :| 0 <= j < |after| && TargetOf(after[j]) == at { assert TargetOf(qs[i + 1 + j]) == at; }
    if j :| 0 <= j < |before| && TargetOf(before[j]) == at { assert TargetOf(qs[j]) == at; }
    if j :| 0 <= j < |qs| && j != i && TargetOf(qs[j]) == at {
      if j < i { assert before[j] == qs[j]; } else { assert after[j - i - 1] == qs[j]; }
    }
  }

  /** Counting decides whether requests clash. */
  lemma ClashByCount(qs: seq<Req>)
    ensures NoClash(qs) <==> forall q <- qs :: CountOf(qs, TargetOf(q)) > 1 ==> CountOf(qs, TargetOf(q)) == SharesOf(qs, TargetOf(q))
  {
    if NoClash(qs) {
      forall q <- qs | CountOf(qs, TargetOf(q)) > 1
        ensures CountOf(qs, TargetOf(q)) == SharesOf(qs, TargetOf(q))
      {
        AllShares(qs, TargetOf(q));
        forall p <- qs | TargetOf(p) == TargetOf(q)
          ensures p.shared
        {
          var i :| 0 <= i < |qs| && qs[i] == p;
          CountedTwice(qs, i);
          var j :| 0 <= j < |qs| && j != i && TargetOf(qs[j]) == TargetOf(qs[i]);
          assert SameTarget(qs[if i < j then i else j], qs[if i < j then j else i]);
        }
      }
    } else {
      var i, j :| 0 <= i < j < |qs| && SameTarget(qs[i], qs[j]) && !(qs[i].shared && qs[j].shared);
      assert TargetOf(qs[j]) == TargetOf(qs[i]) && qs[i] in qs && qs[j] in qs;
      CountedTwice(qs, i);
      AllShares(qs, TargetOf(qs[i]));
    }
  }

  predicate Repeated(qs: seq<Req>, n: nat)
    requires n < |qs|
  {
    exists j | 0 <= j < n :: SameTarget(qs[j], qs[n])
  }

  /** The first request of each resource named from n on. */
  function Firsts(qs: seq<Req>, n: nat): seq<Req>
    requires n <= |qs|
    decreases |qs| - n
  {
    if n == |qs| then [] else (if Repeated(qs, n) then [] else [qs[n]]) + Firsts(qs, n + 1)
  }

  function FirstError(t: Table, site: Site, qs: seq<Req>): Option<Error> {
    if qs == [] then None
    else if CheckFixed(t, site, qs[0]).Some? then CheckFixed(t, site, qs[0]) else FirstError(t, site, qs[1..])
  }

  lemma {:induction false} FirstsAreChecked(t: Table, site: Site, qs: seq<Req>, n: nat)
    requires n <= |qs|
    ensures CheckAllFixed(t, site, qs, n) == FirstError(t, site, Firsts(qs, n))
    decreases |qs| - n
  {
    if n < |qs| {
      FirstsAreChecked(t, site, qs, n + 1);
      if Repeated(qs, n) {
        assert Firsts(qs, n) == Firsts(qs, n + 1);
      } else {
        assert Firsts(qs, n)[0] == qs[n] && Firsts(qs, n)[1..] == Firsts(qs, n + 1);
      }
    }
  }

  /** The dictionary counts the requests of each resource. */
  ghost predicate Tallied(qs: seq<Req>, uses: map<Target, Use>) {
    forall at :: if at in uses then CountOf(qs, at) > 0 && uses[at].count == CountOf(qs, at) && uses[at].shares == SharesOf(qs, at)
                 else CountOf(qs, at) == 0
  }

  function CountIn(uses: map<Target, Use>, q: Req): map<Target, Use> {
    var at, share := TargetOf(q), if q.shared then 1 else 0;
    if at in uses then uses[at := Use(uses[at].count + 1, uses[at].first, uses[at].shares + share)]
    else uses[at := Use(1, q, share)]
  }

  lemma CountedIn(qs: seq<Req>, uses: map<Target, Use>, q: Req)
    requires Tallied(qs, uses)
    ensures Tallied(qs + [q], CountIn(uses, q))
  {
    forall a
      ensures CountOf(qs + [q], a) == CountOf(qs, a) + (if a == TargetOf(q) then 1 else 0)
      ensures SharesOf(qs + [q], a) == SharesOf(qs, a) + (if a == TargetOf(q) && q.shared then 1 else 0)
      ensures a !in uses ==> SharesOf(qs, a) == 0
    {
      CountAppend(qs, [q], a);
      AllShares(qs, a);
      assert CountOf([q][1..], a) == 0 && SharesOf([q][1..], a) == 0;
    }
  }

  lemma RepeatedIsCounted(qs: seq<Req>, n: nat, uses: map<Target, Use>)
    requires n < |qs| && Tallied(qs[..n], uses)
    ensures Repeated(qs, n) <==> TargetOf(qs[n]) in uses
  {
    SomeCount(qs[..n], TargetOf(qs[n]));
    if Repeated(qs, n) {
      var j :| 0 <= j < n && SameTarget(qs[j], qs[n]);
      assert TargetOf(qs[..n][j]) == TargetOf(qs[n]);
    }
    if j :| 0 <= j < |qs[..n]| && TargetOf(qs[..n][j]) == TargetOf(qs[n]) { assert SameTarget(qs[j], qs[n]); }
  }

  /** order lists the keys of the dictionary; their first requests are firsts. */
  ghost predicate Ordered(uses: map<Target, Use>, order: seq<Target>, firsts: seq<Req>) {
    && (forall at <- uses :: at in order)
    && |order| == |firsts|
    && (forall i | 0 <= i < |order| :: order[i] in uses && uses[order[i]].first == firsts[i])
  }

  lemma OrderedIn(uses: map<Target, Use>, order: seq<Target>, firsts: seq<Req>, q: Req)
    requires Ordered(uses, order, firsts)
    ensures TargetOf(q) !in uses ==> Ordered(CountIn(uses, q), order + [TargetOf(q)], firsts + [q])
    ensures TargetOf(q) in uses ==> Ordered(CountIn(uses, q), order, firsts)
  {
    var at, uses' := TargetOf(q), CountIn(uses, q);
    if at !in uses {
      var order' := order + [at];
      assert order'[|order|] == at;
      forall a <- uses' ensures a in order' { assert a == at || a in order; }
    }
  }

  /** State of the count after n requests. */
  ghost predicate Counting(fixed: seq<Req>, n: nat, uses: map<Target, Use>, order: seq<Target>, firsts: seq<Req>)
    requires n <= |fixed|
  {
    Tallied(fixed[..n], uses) && Ordered(uses, order, firsts) && firsts + Firsts(fixed, n) == Firsts(fixed, 0)
  }

  lemma CountNext(fixed: seq<Req>, n: nat, uses: map<Target, Use>, order: seq<Target>, firsts: seq<Req>)
    requires n < |fixed| && Counting(fixed, n, uses, order, firsts)
    ensures var q, at := fixed[n], TargetOf(fixed[n]);
            if at in uses then Counting(fixed, n + 1, CountIn(uses, q), order, firsts)
            else Counting(fixed, n + 1, CountIn(uses, q), order + [at], firsts + [q])
  {
    var q := fixed[n];
    assert fixed[..n + 1] == fixed[..n] + [q];
    CountedIn(fixed[..n], uses, q);
    OrderedIn(uses, order, firsts, q);
    RepeatedIsCounted(fixed, n, uses);
    assert firsts + ([q] + Firsts(fixed, n + 1)) == (firsts + [q]) + Firsts(fixed, n + 1);
  }

  /** The dictionary of fixed resources, and the order in which keys entered it. */
  method CountUses(fixed: seq<Req>) returns (uses: map<Target, Use>, order: seq<Target>)
    ensures Tallied(fixed, uses) && Ordered(uses, order, Firsts(fixed, 0))
  {
    uses, order := map[], [];
    ghost var firsts: seq<Req> := [];
    for n := 0 to |fixed|
      invariant Counting(fixed, n, uses, order, firsts)
    {
      var q, at := fixed[n], TargetOf(fixed[n]);
      CountNext(fixed, n, uses, order, firsts);
      if at !in uses {
        order := order + [at];
        firsts := firsts + [q];
        uses := uses[at := Use(1, q, if q.shared then 1 else 0)];
      } else {
        var use := uses[at];
        uses := uses[at := Use(use.count + 1, use.first, use.shares + if q.shared then 1 else 0)];
      }
    }
    assert fixed[..|fixed|] == fixed && firsts + [] == firsts;
  }

  /** No resource is counted more than once unless every time as shared. */
  method NoneUsedTwice(fixed: seq<Req>, uses: map<Target, Use>, order: seq<Target>) returns (ok: bool)
    requires Tallied(fixed, uses) && Ordered(uses, order, Firsts(fixed, 0))
    ensures ok == NoClash(fixed)
  {
    ClashByCount(fixed);
    for n := 0 to |order|
      invariant forall i | 0 <= i < n :: uses[order[i]].count > 1 ==> uses[order[i]].count == uses[order[i]].shares
    {
      var use := uses[order[n]];
      if use.count > 1 && use.count != use.shares {
        SomeCount(fixed, order[n]);
        var i :| 0 <= i < |fixed| && TargetOf(fixed[i]) == order[n];
        assert fixed[i] in fixed;
        return false;
      }
    }
    forall q <- fixed
      ensures CountOf(fixed, TargetOf(q)) > 1 ==> CountOf(fixed, TargetOf(q)) == SharesOf(fixed, TargetOf(q))
    {
      var j :| 0 <= j < |fixed| && fixed[j] == q;
      SomeCount(fixed, TargetOf(q));
      assert TargetOf(q) in order;
    }
    ok := true;
  }

  /** Check a request before planning. */
  method ValidateFixed(t: Table, site: Site, fixed: seq<Req>) returns (e: Option<Error>)
    ensures e == if !NoClash(fixed) then Some(BadRequest) else CheckAllFixed(t, site, fixed, 0)
  {
    var uses, order := CountUses(fixed);
    var ok := NoneUsedTwice(fixed, uses, order);
    if !ok { return Some(BadRequest); }
    FirstsAreChecked(t, site, fixed, 0);
    for n := 0 to |order|
      invariant FirstError(t, site, Firsts(fixed, 0)) == FirstError(t, site, Firsts(fixed, 0)[n..])
    {
      var complaint := CheckFixed(t, site, uses[order[n]].first);
      assert Firsts(fixed, 0)[n..][1..] == Firsts(fixed, 0)[n + 1..];
      if complaint.Some? { return complaint; }
    }
    e := None;
  }

  // -------------------------------------------------------- classification

  lemma WithDOFNext(groups: seq<Group>, d: nat, n: nat, done: seq<nat>)
    requires n < |groups|
    ensures done + WithDOF(groups, d, n) == (if GroupDOF(groups[n]) == d then done + [n] else done) + WithDOF(groups, d, n + 1)
  {
  }

  /** Sort the groups by their degrees of freedom. */
  method ByDOF(groups: seq<Group>) returns (fixed: seq<nat>, indexed: seq<nat>, hosted: seq<nat>, anywhere: seq<nat>)
    ensures fixed == WithDOF(groups, 0, 0) && indexed == WithDOF(groups, 1, 0)
    ensures hosted == WithDOF(groups, 2, 0) && anywhere == WithDOF(groups, 3, 0)
  {
    fixed, indexed, hosted, anywhere := [], [], [], [];
    for n := 0 to |groups|
      invariant fixed + WithDOF(groups, 0, n) == WithDOF(groups, 0, 0)
      invariant indexed + WithDOF(groups, 1, n) == WithDOF(groups, 1, 0)
      invariant hosted + WithDOF(groups, 2, n) == WithDOF(groups, 2, 0)
      invariant anywhere + WithDOF(groups, 3, n) == WithDOF(groups, 3, 0)
    {
      WithDOFNext(groups, 0, n, fixed);
      WithDOFNext(groups, 1, n, indexed);
      WithDOFNext(groups, 2, n, hosted);
      WithDOFNext(groups, 3, n, anywhere);
      var dof := HighestDOF(groups[n]);
      match dof {
        case 0 => fixed := fixed + [n];
        case 1 => indexed := indexed + [n];
        case 2 => hosted := hosted + [n];
        case _ => anywhere := anywhere + [n];
      }
    }
    assert fixed + [] == fixed && indexed + [] == indexed && hosted + [] == hosted && anywhere + [] == anywhere;
  }

  lemma {:induction false} MaxDOFAppend(reqs: seq<Req>, q: Req)
    ensures MaxDOF(reqs + [q]) == if DOF(q) > MaxDOF(reqs) then DOF(q) else MaxDOF(reqs)
  {
    if reqs == [] {
      assert [q][1..] == [];
    } else {
      assert (reqs + [q])[0] == reqs[0] && (reqs + [q])[1..] == reqs[1..] + [q];
      MaxDOFAppend(reqs[1..], q);
    }
  }

  method HighestDOF(g: Group) returns (dof: nat)
    ensures dof == GroupDOF(g) <= 3
  {
    match g {
      case Node(_, _) => dof := 3;
      case Reqs(reqs) =>
        dof := 0;
        for n := 0 to |reqs|
          invariant dof == MaxDOF(reqs[..n]) <= 3
        {
          assert reqs[..n + 1] == reqs[..n] + [reqs[n]];
          MaxDOFAppend(reqs[..n], reqs[n]);
          if DOF(reqs[n]) > dof { dof := DOF(reqs[n]); }
        }
        assert reqs[..|reqs|] == reqs;
    }
  }

  // ----------------------------------------------------------- availability

  /** The part of a pool that is still free; what is used up is taken out. */
  function StillFree(pool: Table): Table { map k | k in pool && IsFree(pool[k]) :: pool[k] }

  /** Take the fixed requests of one list out of the pool. */
  method TakeFixedOf(pool0: Table, reqs: seq<Req>, uid: nat, ghost full0: Table) returns (ok: bool, pool: Table, ghost full: Table)
    requires pool0 == StillFree(full0) && forall q <- reqs :: DOF(q) == 0 ==> Keyed(q)
    ensures CommitAll(full0, GrantsOf(FixedOf(reqs)), uid) == if ok then Some(full) else None
    ensures ok ==> pool == StillFree(full)
  {
    pool, full := pool0, full0;
    for n := 0 to |reqs|
      invariant pool == StillFree(full)
      invariant CommitAll(full0, GrantsOf(FixedOf(reqs)), uid) == CommitAll(full, GrantsOf(FixedOf(reqs[n..])), uid)
    {
      var q := reqs[n];
      assert q in reqs && reqs[n..][0] == q && reqs[n..][1..] == reqs[n + 1..];
      if DOF(q) == 0 {
        TakeOne(full, q, reqs[n + 1..], uid);
        assert FixedOf(reqs[n..]) == [q] + FixedOf(reqs[n + 1..]);
        if !(KeyOf(q) in pool && CanAllocate(pool[KeyOf(q)], q)) {
          return false, pool, full;
        }
        var grown := Grow(pool[KeyOf(q)], q, uid);
        full := full[KeyOf(q) := grown];
        pool := if IsFree(grown) then pool[KeyOf(q) := grown] else map k | k in pool && k != KeyOf(q) :: pool[k];
        assert pool == StillFree(full);
      } else {
        assert FixedOf(reqs[n..]) == FixedOf(reqs[n + 1..]);
      }
    }
    ok := true;
  }

  lemma TakeOne(full: Table, q: Req, later: seq<Req>, uid: nat)
    requires Keyed(q)
    ensures CommitAll(full, GrantsOf([q] + FixedOf(later)), uid)
         == if KeyOf(q) in full && CanAllocate(full[KeyOf(q)], q)
            then CommitAll(full[KeyOf(q) := Grow(full[KeyOf(q)], q, uid)], GrantsOf(FixedOf(later)), uid) else None
  {
    var gs := GrantsOf([q] + FixedOf(later));
    assert ([q] + FixedOf(later))[1..] == FixedOf(later);
    assert gs == [Grant(KeyOf(q), q)] + GrantsOf(FixedOf(later));
    assert gs[1..] == GrantsOf(FixedOf(later));
  }

  /** The fixed requests of the groups listed. */
  function FixedOver(groups: seq<Group>, todo: seq<nat>): seq<Req>
    requires InRange(todo, |groups|)
  {
    if todo == [] then [] else FixedOf(GroupReqs(groups[todo[0]])) + FixedOver(groups, todo[1..])
  }

  lemma {:induction false} FixedOverDOF(groups: seq<Group>, d: nat, n: nat)
    requires n <= |groups|
    ensures InRange(WithDOF(groups, d, n), |groups|)
    ensures FixedOver(groups, WithDOF(groups, d, n)) == FixedWithDOF(groups[n..], d)
    decreases |groups| - n
  {
    if n < |groups| {
      FixedOverDOF(groups, d, n + 1);
      var todo, rest := WithDOF(groups, d, n), WithDOF(groups, d, n + 1);
      assert groups[n..][0] == groups[n] && groups[n..][1..] == groups[n + 1..];
      if GroupDOF(groups[n]) == d {
        assert todo == [n] + rest && todo[1..] == rest;
      } else {
        assert todo == rest;
      }
    }
  }

  ghost predicate FixedKeyed(groups: seq<Group>) {
    forall g <- groups :: forall q <- GroupReqs(g) :: DOF(q) == 0 ==> Keyed(q)
  }

  /** Take the fixed requests of several lists, in turn. */
  method TakeFixed(pool0: Table, groups: seq<Group>, todo: seq<nat>, uid: nat, ghost full0: Table)
    returns (ok: bool, pool: Table, ghost full: Table)
    requires pool0 == StillFree(full0) && InRange(todo, |groups|) && FixedKeyed(groups)
    ensures CommitAll(full0, GrantsOf(FixedOver(groups, todo)), uid) == if ok then Some(full) else None
    ensures ok ==> pool == StillFree(full)
  {
    pool, full := pool0, full0;
    for n := 0 to |todo|
      invariant pool == StillFree(full)
      invariant CommitAll(full0, GrantsOf(FixedOver(groups, todo)), uid) == CommitAll(full, GrantsOf(FixedOver(groups, todo[n..])), uid)
    {
      assert todo[n..][0] == todo[n] && todo[n..][1..] == todo[n + 1..] && groups[todo[n]] in groups;
      var reqs := GroupReqs(groups[todo[n]]);
      GrantsOfAppend(FixedOf(reqs), FixedOver(groups, todo[n + 1..]));
      CommitAppend(full, GrantsOf(FixedOf(reqs)), GrantsOf(FixedOver(groups, todo[n + 1..])), uid);
      ok, pool, full := TakeFixedOf(pool, reqs, uid, full);
      if !ok { return; }
    }
    ok := true;
  }
}
