/** Admission to a shared X server: who may connect, what happens to access when
    clients leave, and what holds however the server is used. */
module SharedServer {
  import opened Resources

  /** A connection and the user behind it. The invoking process has an entry without a
      connection (fd -1) until it connects itself. */
  datatype Client = Client(fd: int, uid: int)

  datatype Status = Connected | LimitReached | Denied | AlreadyConnected | Undefined

  predicate HasUser(cs: seq<Client>, uid: int) { exists c <- cs :: c.uid == uid }

  /** How many connections a user has. */
  function Count(cs: seq<Client>, uid: int): nat {
    if cs == [] then 0 else (if cs[0].uid == uid then 1 else 0) + Count(cs[1..], uid)
  }

  lemma {:induction false} CountConcat(a: seq<Client>, b: seq<Client>, u: int)
    ensures Count(a + b, u) == Count(a, u) + Count(b, u)
  {
    if a == [] {
      assert a + b == b;
    } else {
      assert (a + b)[0] == a[0] && (a + b)[1..] == a[1..] + b;
      CountConcat(a[1..], b, u);
    }
  }

  lemma CountOne(cs: seq<Client>, c: Client, u: int)
    ensures Count(cs + [c], u) == Count(cs, u) + if c.uid == u then 1 else 0
  {
    CountConcat(cs, [c], u);
    assert [c][1..] == [];
  }

  lemma {:induction false} CountIsPresence(cs: seq<Client>, u: int)
    ensures Count(cs, u) > 0 <==> HasUser(cs, u)
  {
    if cs != [] {
      CountIsPresence(cs[1..], u);
      assert cs == [cs[0]] + cs[1..];
    }
  }

  // ------------------------------------------------------------- admission

  predicate Everyone(acl: seq<int>) { acl == [-1] }

  /** How many entries the access list has for a user. */
  function Entries(acl: seq<int>, u: int): nat { multiset(acl)[u] }

  /** The access list has an entry for each connection. */
  ghost predicate Covers(acl: seq<int>, cs: seq<Client>) { forall u :: Count(cs, u) <= Entries(acl, u) }

  /** The answer to a user who wants to connect. If the list has fewer entries for some
      user than that user has connections, what the code does is undefined. */
  ghost function Admission(cs: seq<Client>, acl: seq<int>, limit: int, uid: int): Status {
    if |cs| == limit then LimitReached
    else if Everyone(acl) then Connected
    else if uid !in acl then Denied
    else if !Covers(acl, cs) then Undefined
    else if Count(cs, uid) < Entries(acl, uid) then Connected
    else AlreadyConnected
  }

  /** Take the first entry for a user out of a list; None if there is none, where the
      code would erase past the end. */
  method EraseFirst(users: seq<int>, uid: int) returns (r: Option<seq<int>>)
    ensures r.None? <==> Entries(users, uid) == 0
    ensures r.Some? ==> forall u :: Entries(r.value, u) == Entries(users, u) - if u == uid then 1 else 0
  {
    for i := 0 to |users|
      invariant uid !in users[..i]
    {
      if users[i] == uid {
        assert users == users[..i] + ([uid] + users[i + 1..]);
        return Some(users[..i] + users[i + 1..]);
      }
      assert users[..i + 1] == users[..i] + [users[i]];
    }
    assert users[..|users|] == users;
    r := None;
  }

  /** The users who may still connect: the list without those connected. */
  method AllowedUsers(acl: seq<int>, cs: seq<Client>) returns (r: Option<seq<int>>)
    ensures r.Some? <==> Covers(acl, cs)
    ensures r.Some? ==> forall u :: Entries(r.value, u) == Entries(acl, u) - Count(cs, u)
  {
    var allowed := acl;
    for i := 0 to |cs|
      invariant forall u :: Entries(allowed, u) + Count(cs[..i], u) == Entries(acl, u)
    {
      assert cs[..i + 1] == cs[..i] + [cs[i]];
      forall u ensures Count(cs[..i + 1], u) == Count(cs[..i], u) + if cs[i].uid == u then 1 else 0 {
        CountOne(cs[..i], cs[i], u);
      }
      var next := EraseFirst(allowed, cs[i].uid);
      if next.None? {
        CountConcat(cs[..i + 1], cs[i + 1..], cs[i].uid);
        assert cs == cs[..i + 1] + cs[i + 1..];
        assert Count(cs, cs[i].uid) > Entries(acl, cs[i].uid);
        return None;
      }
      allowed := next.value;
    }
    assert cs[..|cs|] == cs;
    r := Some(allowed);
  }

  method Decide(cs: seq<Client>, acl: seq<int>, limit: int, uid: int) returns (s: Status)
    ensures s == Admission(cs, acl, limit, uid)
  {
    if |cs| == limit { return LimitReached; }
    if |acl| == 1 && acl[0] == -1 { return Connected; }
    if uid !in acl { return Denied; }
    var allowed := AllowedUsers(acl, cs);
    if allowed.None? { return Undefined; }
    assert uid in allowed.value <==> Entries(allowed.value, uid) > 0;
    s := if uid in allowed.value then Connected else AlreadyConnected;
  }

  // --------------------------------------------------------------- leaving

  predicate Gone(c: Client, ready: set<int>) { c.fd != -1 && c.fd in ready }

  function Remaining(cs: seq<Client>, ready: set<int>): seq<Client> {
    if cs == [] then [] else (if Gone(cs[0], ready) then [] else [cs[0]]) + Remaining(cs[1..], ready)
  }

  lemma {:induction false} RemainingMembers(cs: seq<Client>, ready: set<int>)
    ensures forall c :: c in Remaining(cs, ready) <==> c in cs && !Gone(c, ready)
    ensures |Remaining(cs, ready)| <= |cs|
  {
    if cs != [] {
      RemainingMembers(cs[1..], ready);
      assert cs == [cs[0]] + cs[1..];
    }
  }

  lemma {:induction false} RemainingCounts(cs: seq<Client>, ready: set<int>, u: int)
    ensures Count(Remaining(cs, ready), u) <= Count(cs, u)
  {
    if cs != [] {
      RemainingCounts(cs[1..], ready, u);
      CountConcat(if Gone(cs[0], ready) then [] else [cs[0]], Remaining(cs[1..], ready), u);
      assert [cs[0]][1..] == [];
    }
  }

  /** The users whose access ends: they left, none of their connections remains, and
      taking access away did not fail. */
  ghost function Revoked(cs: seq<Client>, ready: set<int>, failing: set<int>): set<int> {
    set c | c in cs && Gone(c, ready) && !HasUser(Remaining(cs, ready), c.uid) && c.uid !in failing :: c.uid
  }

  lemma {:induction false} NothingGone(cs: seq<Client>, ready: set<int>)
    requires forall i | 0 <= i < |cs| :: !Gone(cs[i], ready)
    ensures Remaining(cs, ready) == cs
  {
    if cs != [] { NothingGone(cs[1..], ready); }
  }

  lemma {:induction false} RemainingConcat(a: seq<Client>, b: seq<Client>, ready: set<int>)
    ensures Remaining(a + b, ready) == Remaining(a, ready) + Remaining(b, ready)
  {
    if a == [] {
      assert a + b == b;
    } else {
      assert (a + b)[0] == a[0] && (a + b)[1..] == a[1..] + b;
      RemainingConcat(a[1..], b, ready);
    }
  }

  /** erase lists the indices of clients that left, last first. */
  ghost predicate Descending(cs: seq<Client>, ready: set<int>, erase: seq<nat>) {
    && (forall k | 0 <= k < |erase| :: erase[k] < |cs| && Gone(cs[erase[k]], ready))
    && (forall k, l | 0 <= k < l < |erase| :: erase[k] > erase[l])
    && (forall i | 0 <= i < |cs| && Gone(cs[i], ready) :: i in erase)
  }

  method FindGone(cs: seq<Client>, ready: set<int>) returns (erase: seq<nat>)
    ensures Descending(cs, ready, erase)
  {
    erase := [];
    for i := 0 to |cs|
      invariant Descending(cs[..i], ready, erase)
    {
      var before := erase;
      if Gone(cs[i], ready) {
        erase := [i] + erase;
        assert erase[0] == i && forall j <- before :: j in erase;
      }
    }
    assert cs[..|cs|] == cs;
  }

  method StillConnected(cs: seq<Client>, uid: int) returns (remains: bool)
    ensures remains <==> HasUser(cs, uid)
  {
    remains := false;
    for j := 0 to |cs|
      invariant remains <==> exists i | 0 <= i < j :: cs[i].uid == uid
    {
      if cs[j].uid == uid { remains := true; }
    }
    if remains {
      var i :| 0 <= i < |cs| && cs[i].uid == uid;
      assert cs[i] in cs;
    }
  }

  /** Up to where the list has been gone through after n entries were erased. */
  ghost function Mark(cs: seq<Client>, erase: seq<nat>, n: nat): nat
    requires n <= |erase|
  {
    if n == 0 then |cs| else erase[n - 1]
  }

  /** What is left after the first n entries of the list have been erased. */
  ghost function Left(cs: seq<Client>, ready: set<int>, erase: seq<nat>, n: nat): seq<Client>
    requires n <= |erase| && Mark(cs, erase, n) <= |cs|
  {
    cs[..Mark(cs, erase, n)] + Remaining(cs[Mark(cs, erase, n)..], ready)
  }

  /** Between two entries of the list nobody left. */
  lemma NobodyBetween(cs: seq<Client>, ready: set<int>, erase: seq<nat>, n: nat)
    requires Descending(cs, ready, erase) && n <= |erase|
    ensures Mark(cs, erase, n) <= |cs|
    ensures var from := if n < |erase| then erase[n] + 1 else 0;
            from <= Mark(cs, erase, n) && forall j | from <= j < Mark(cs, erase, n) :: !Gone(cs[j], ready)
  {
    var from := if n < |erase| then erase[n] + 1 else 0;
    forall k | 0 <= k < |erase|
      ensures erase[k] < from || Mark(cs, erase, n) <= erase[k]
    {
      if k < n {
        assert k == n - 1 || erase[k] > erase[n - 1];
      } else {
        assert k == n || erase[n] > erase[k];
      }
    }
  }

  /** Erasing by descending index filters the list, one entry at a time. */
  lemma EraseOne(cs: seq<Client>, ready: set<int>, erase: seq<nat>, n: nat)
    requires Descending(cs, ready, erase) && n < |erase| && Mark(cs, erase, n) <= |cs|
    ensures var now, i := Left(cs, ready, erase, n), erase[n];
            i < |now| && now[i] == cs[i] && now[..i] + now[i + 1..] == Left(cs, ready, erase, n + 1)
  {
    NobodyBetween(cs, ready, erase, n);
    var p, i := Mark(cs, erase, n), erase[n];
    SkipGap(cs, ready, i, p);
    var now := Left(cs, ready, erase, n);
    assert now[..i] == cs[..i] && now[i + 1..] == cs[i + 1..p] + Remaining(cs[p..], ready);
  }

  lemma SkipGap(cs: seq<Client>, ready: set<int>, i: nat, p: nat)
    requires i < p <= |cs| && Gone(cs[i], ready) && forall j | i < j < p :: !Gone(cs[j], ready)
    ensures Remaining(cs[i..], ready) == cs[i + 1..p] + Remaining(cs[p..], ready)
  {
    NothingGone(cs[i + 1..p], ready);
    RemainingConcat(cs[i + 1..p], cs[p..], ready);
    assert cs[i..][1..] == cs[i + 1..p] + cs[p..];
  }

  /** Erasing all entries by descending index is filtering. */
  lemma AllErased(cs: seq<Client>, ready: set<int>, erase: seq<nat>)
    requires Descending(cs, ready, erase)
    ensures Mark(cs, erase, |erase|) <= |cs| && Left(cs, ready, erase, |erase|) == Remaining(cs, ready)
  {
    NobodyBetween(cs, ready, erase, |erase|);
    var p := Mark(cs, erase, |erase|);
    NothingGone(cs[..p], ready);
    assert cs == cs[..p] + cs[p..];
    RemainingConcat(cs[..p], cs[p..], ready);
  }

  // ---------------------------------------------------------- losing access

  lemma RevokedStep(cs: seq<Client>, ready: set<int>, erase: seq<nat>, n: nat, failing: set<int>, lost: set<int>)
    requires Descending(cs, ready, erase) && n < |erase| && Mark(cs, erase, n) <= |cs|
    requires lost == LostBy(cs, ready, erase, n, failing)
    ensures Mark(cs, erase, n + 1) <= |cs|
    ensures var u := cs[erase[n]].uid;
            LostBy(cs, ready, erase, n + 1, failing)
              == if HasUser(Left(cs, ready, erase, n + 1), u) || u in failing then lost else lost + {u}
  {
    EraseOne(cs, ready, erase, n);
    var now, next, i := Left(cs, ready, erase, n), Left(cs, ready, erase, n + 1), erase[n];
    assert forall c :: c in now <==> c in next || c == cs[i] by {
      assert now == now[..i] + ([now[i]] + now[i + 1..]);
    }
    var u := cs[i].uid;
    forall v
      ensures HasUser(now, v) <==> HasUser(next, v) || v == u
    {
      if HasUser(now, v) { var c :| c in now && c.uid == v; }
      if HasUser(next, v) { var c :| c in next && c.uid == v; assert c in now; }
      assert cs[i] in now;
    }
  }

  /** Users who have lost access after the first n entries were erased. */
  ghost function LostBy(cs: seq<Client>, ready: set<int>, erase: seq<nat>, n: nat, failing: set<int>): set<int>
    requires n <= |erase| && Mark(cs, erase, n) <= |cs| && forall k | 0 <= k < |erase| :: erase[k] < |cs|
  {
    set k | 0 <= k < n && !HasUser(Left(cs, ready, erase, n), cs[erase[k]].uid) && cs[erase[k]].uid !in failing :: cs[erase[k]].uid
  }

  /** State after n entries of the list were erased. */
  ghost predicate Dropping(cs: seq<Client>, ready: set<int>, failing: set<int>, erase: seq<nat>, access0: set<int>, n: nat,
                           clients: seq<Client>, access: set<int>) {
    && Descending(cs, ready, erase) && n <= |erase| && Mark(cs, erase, n) <= |cs|
    && clients == Left(cs, ready, erase, n) && access == access0 - LostBy(cs, ready, erase, n, failing)
  }

  /** The list and the users with access once a client is gone. */
  function WithoutClient(clients: seq<Client>, i: nat): seq<Client>
    requires i < |clients|
  {
    clients[..i] + clients[i + 1..]
  }

  function AccessWithout(clients: seq<Client>, i: nat, access: set<int>, failing: set<int>): set<int>
    requires i < |clients|
  {
    var u := clients[i].uid;
    if HasUser(WithoutClient(clients, i), u) || u in failing then access else access - {u}
  }

  lemma DroppingNext(cs: seq<Client>, ready: set<int>, failing: set<int>, erase: seq<nat>, access0: set<int>, n: nat,
                     clients: seq<Client>, access: set<int>)
    requires Dropping(cs, ready, failing, erase, access0, n, clients, access) && n < |erase|
    ensures erase[n] < |clients|
    ensures Dropping(cs, ready, failing, erase, access0, n + 1, WithoutClient(clients, erase[n]), AccessWithout(clients, erase[n], access, failing))
  {
    EraseOne(cs, ready, erase, n);
    RevokedStep(cs, ready, erase, n, failing, LostBy(cs, ready, erase, n, failing));
  }

  lemma AllRevoked(cs: seq<Client>, ready: set<int>, erase: seq<nat>, failing: set<int>)
    requires Descending(cs, ready, erase)
    ensures Mark(cs, erase, |erase|) <= |cs| && LostBy(cs, ready, erase, |erase|, failing) == Revoked(cs, ready, failing)
  {
    AllErased(cs, ready, erase);
    var lost, revoked := LostBy(cs, ready, erase, |erase|, failing), Revoked(cs, ready, failing);
    forall u
      ensures u in lost <==> u in revoked
    {
      if u in lost {
        var k :| 0 <= k < |erase| && cs[erase[k]].uid == u;
        assert cs[erase[k]] in cs && Gone(cs[erase[k]], ready);
      }
      if u in revoked {
        var c :| c in cs && Gone(c, ready) && c.uid == u;
        var i :| 0 <= i < |cs| && cs[i] == c;
        var k :| 0 <= k < |erase| && erase[k] == i;
      }
    }
  }

  // ------------------------------------------------------------------- runs

  datatype State = State(clients: seq<Client>, acl: seq<int>, limit: int, access: set<int>)

  /** Clients leave, or someone asks to connect, which brings a list and a limit. */
  datatype Event =
    | Drop(ready: set<int>, failing: set<int>)
    | Join(fromParent: bool, uid: int, fd: int, acl: seq<int>, limit: int, works: bool)

  ghost function AnswerTo(s: State, e: Event): Status
    requires e.Join?
  {
    if !e.fromParent then Admission(s.clients, e.acl, e.limit, e.uid) else if s.clients == [] then Undefined else Connected
  }

  ghost function Step(s: State, e: Event): State {
    match e
    case Drop(ready, failing) => s.(clients := Remaining(s.clients, ready), access := s.access - Revoked(s.clients, ready, failing))
    case Join(fromParent, uid, fd, acl, limit, works) =>
      if AnswerTo(s, e) != Connected then s.(acl := acl, limit := limit)
      else
        State(if fromParent then s.clients[0 := s.clients[0].(fd := fd)] else s.clients + [Client(fd, uid)],
              acl, limit, s.access + if works then {uid} else {})
  }

  ghost function Run(s: State, es: seq<Event>): State
    decreases |es|
  {
    if es == [] then s else Run(Step(s, es[0]), es[1..])
  }

  /** The list has room for one more connection of this user. */
  ghost predicate LetsIn(cs: seq<Client>, acl: seq<int>, uid: int) {
    Everyone(acl) || (Covers(acl, cs) && Count(cs, uid) < Entries(acl, uid))
  }

  /** Nobody is to be let in once the limit is reached. As the limit is compared for
      equality, somebody is exactly when a limit below the number of clients arrives
      and the list lets him in. */
  lemma AdmittedPastLimitExactly(s: State, e: Event)
    requires e.Join? && !e.fromParent
    ensures AnswerTo(s, e) == Connected && |s.clients| >= e.limit
       <==> |s.clients| > e.limit && LetsIn(s.clients, e.acl, e.uid)
  {
    if Entries(e.acl, e.uid) > 0 { assert e.uid in multiset(e.acl); }
  }

  /** Two clients are connected, the limit becomes one, and a third is let in. */
  lemma LoweredLimitAdmits(u: int, v: int, w: int)
    ensures var s := State([Client(4, u), Client(5, v)], [-1], 2, {u, v});
            var e := Join(false, w, 6, [-1], 1, true);
            AnswerTo(s, e) == Connected && |Step(s, e).clients| == 3 && Step(s, e).limit == 1
  {
  }

  /** A request leaves the clients within the limit it brings exactly if they were. */
  lemma LimitHoldsExactly(s: State, e: Event)
    requires e.Join?
    ensures |Step(s, e).clients| <= e.limit <==> |s.clients| <= e.limit
  {
  }

  lemma {:induction false} LimitHoldsThroughout(s: State, es: seq<Event>, limit: nat)
    requires |s.clients| <= limit && forall e <- es :: e.Join? ==> e.limit == limit
    ensures |Run(s, es).clients| <= limit
    decreases |es|
  {
    if es != [] {
      assert es[0] in es;
      match es[0] {
        case Drop(ready, failing) => RemainingMembers(s.clients, ready);
        case Join(_, _, _, _, _, _) => LimitHoldsExactly(s, es[0]);
      }
      LimitHoldsThroughout(Step(s, es[0]), es[1..], limit);
    }
  }

  /** The list lets everyone in, or has an entry for each connection. */
  ghost predicate Listed(s: State) { Everyone(s.acl) || Covers(s.acl, s.clients) }

  /** Each list that arrives covers the clients of the moment. */
  ghost predicate ListsCover(s: State, es: seq<Event>)
    decreases |es|
  {
    es == [] ||
    ((es[0].Join? ==> Everyone(es[0].acl) || Covers(es[0].acl, s.clients)) && ListsCover(Step(s, es[0]), es[1..]))
  }

  lemma StepKeepsListed(s: State, e: Event)
    requires Listed(s) && (e.Join? ==> Everyone(e.acl) || Covers(e.acl, s.clients))
    ensures Listed(Step(s, e))
    ensures e.Join? && !e.fromParent ==> AnswerTo(s, e) != Undefined
  {
    var s' := Step(s, e);
    forall u
      ensures e.Drop? ==> Count(s'.clients, u) <= Count(s.clients, u)
      ensures e.Join? && !e.fromParent && AnswerTo(s, e) == Connected ==>
                Count(s'.clients, u) == Count(s.clients, u) + if u == e.uid then 1 else 0
      ensures e.Join? && e.fromParent && AnswerTo(s, e) == Connected ==> Count(s'.clients, u) == Count(s.clients, u)
    {
      match e {
        case Drop(ready, failing) => RemainingCounts(s.clients, ready, u);
        case Join(fromParent, uid, fd, _, _, _) =>
          CountOne(s.clients, Client(fd, uid), u);
          if fromParent && s.clients != [] { assert s'.clients[1..] == s.clients[1..]; }
      }
    }
  }

  /** No limit that arrives is below the number of clients of the moment. */
  ghost predicate LimitsCover(s: State, es: seq<Event>)
    decreases |es|
  {
    es == [] || ((es[0].Join? ==> |s.clients| <= es[0].limit) && LimitsCover(Step(s, es[0]), es[1..]))
  }

  /** With such limits nobody is ever let in past the limit of the moment. */
  lemma {:induction false} NeverPastLimit(s: State, es: seq<Event>)
    requires |s.clients| <= s.limit && LimitsCover(s, es)
    ensures |Run(s, es).clients| <= Run(s, es).limit
    decreases |es|
  {
    if es != [] {
      match es[0] {
        case Drop(ready, failing) => RemainingMembers(s.clients, ready);
        case Join(_, _, _, _, _, _) => LimitHoldsExactly(s, es[0]);
      }
      NeverPastLimit(Step(s, es[0]), es[1..]);
    }
  }

  /** Every request along the run gets an answer: nothing is erased past the end of a list. */
  ghost predicate NeverUndefined(s: State, es: seq<Event>)
    decreases |es|
  {
    es == [] || ((es[0].Join? && !es[0].fromParent ==> AnswerTo(s, es[0]) != Undefined) && NeverUndefined(Step(s, es[0]), es[1..]))
  }

  /** As long as each list that arrives covers the clients connected by then, no user
      ever has more connections than entries, and no answer is undefined. */
  lemma {:induction false} NeverMoreThanListed(s: State, es: seq<Event>)
    requires Listed(s) && ListsCover(s, es)
    ensures Listed(Run(s, es)) && NeverUndefined(s, es)
    decreases |es|
  {
    if es != [] {
      StepKeepsListed(s, es[0]);
      NeverMoreThanListed(Step(s, es[0]), es[1..]);
    }
  }

  /** Whoever is connected has access, and whoever has access is listed. */
  ghost predicate AccessFits(s: State) {
    (forall c <- s.clients :: c.fd != -1 ==> c.uid in s.access) && (forall u <- s.access :: HasUser(s.clients, u))
  }

  /** Giving and taking access works, and when the invoking process connects its user
      has an entry. Its connection is written into the first entry, whoever that belongs
      to, so that user must have access already, or be its own. */
  ghost predicate Smooth(s: State, e: Event) {
    match e
    case Drop(_, failing) => failing == {}
    case Join(fromParent, uid, fd, _, _, works) => works && (fromParent && s.clients != [] ==> ParentFits(s, uid, fd))
  }

  ghost predicate ParentFits(s: State, uid: int, fd: int)
    requires s.clients != []
  {
    HasUser(s.clients, uid) && (fd != -1 ==> s.clients[0].uid == uid || s.clients[0].uid in s.access)
  }

  /** The invoking process connects: access still fits the clients exactly if its user
      has an entry and that of the first client has access. */
  lemma ParentFitsExactly(s: State, e: Event)
    requires AccessFits(s) && e.Join? && e.fromParent && e.works && s.clients != []
    ensures AccessFits(Step(s, e)) <==> ParentFits(s, e.uid, e.fd)
  {
    var cs, s' := s.clients, Step(s, e);
    forall u
      ensures HasUser(s'.clients, u) <==> HasUser(cs, u)
    {
      if HasUser(cs, u) { SameUsers(cs, s'.clients, u); }
      if HasUser(s'.clients, u) { SameUsers(s'.clients, cs, u); }
    }
    assert s'.clients[0] in s'.clients && cs[0] in cs;
    if ParentFits(s, e.uid, e.fd) {
      forall c <- s'.clients | c.fd != -1
        ensures c.uid in s'.access
      {
        var i :| 0 <= i < |s'.clients| && s'.clients[i] == c;
        if i > 0 { assert cs[i] == c && cs[i] in cs; }
      }
    }
  }

  lemma SameUsers(cs: seq<Client>, ds: seq<Client>, u: int)
    requires |cs| == |ds| && forall i | 0 <= i < |cs| :: cs[i].uid == ds[i].uid
    requires HasUser(cs, u)
    ensures HasUser(ds, u)
  {
    var c :| c in cs && c.uid == u;
    var i :| 0 <= i < |cs| && cs[i] == c;
    assert ds[i] in ds;
  }

  /** The invoking process connects after its entry is gone: the first entry, of another
      user, gets its connection, and its own user has access without an entry. */
  lemma ParentTakesOver(u: int, v: int)
    requires u != v
    ensures var s := State([Client(4, v)], [-1], 2, {v});
            var e := Join(true, u, 5, [-1], 2, true);
            AccessFits(s) && Step(s, e).clients == [Client(5, v)] && u in Step(s, e).access && !AccessFits(Step(s, e))
  {
    var s, e := State([Client(4, v)], [-1], 2, {v}), Join(true, u, 5, [-1], 2, true);
    assert s.clients[0] in s.clients;
    ParentFitsExactly(s, e);
  }

  lemma DropKeepsAccess(s: State, ready: set<int>)
    requires AccessFits(s)
    ensures AccessFits(Step(s, Drop(ready, {})))
  {
    var cs, s' := s.clients, Step(s, Drop(ready, {}));
    RemainingMembers(cs, ready);
    forall c <- s'.clients | c.fd != -1
      ensures c.uid in s'.access
    {
      assert HasUser(s'.clients, c.uid);
    }
    forall u <- s'.access
      ensures HasUser(s'.clients, u)
    {
      var c :| c in cs && c.uid == u;
      if Gone(c, ready) {
        assert u !in Revoked(cs, ready, {});
      } else {
        assert c in s'.clients;
      }
    }
  }

  lemma JoinKeepsAccess(s: State, e: Event)
    requires AccessFits(s) && e.Join? && Smooth(s, e)
    ensures AccessFits(Step(s, e))
  {
    var s' := Step(s, e);
    if AnswerTo(s, e) == Connected && e.fromParent {
      ParentFitsExactly(s, e);
    } else if AnswerTo(s, e) == Connected {
      forall u <- s'.access
        ensures HasUser(s'.clients, u)
      {
        if u == e.uid {
          assert s'.clients[|s.clients|] in s'.clients;
        } else {
          var c :| c in s.clients && c.uid == u;
          assert c in s'.clients;
        }
      }
    }
  }

  ghost predicate SmoothRun(s: State, es: seq<Event>)
    decreases |es|
  {
    es == [] || (Smooth(s, es[0]) && SmoothRun(Step(s, es[0]), es[1..]))
  }

  /** In every state of a run in which changing access works, every connected user has
      access, and only users of listed clients have it. */
  lemma {:induction false} AccessFitsThroughout(s: State, es: seq<Event>)
    requires AccessFits(s) && SmoothRun(s, es)
    ensures AccessFits(Run(s, es))
    decreases |es|
  {
    if es != [] {
      match es[0] {
        case Drop(ready, failing) => DropKeepsAccess(s, ready);
        case Join(_, _, _, _, _, _) => JoinKeepsAccess(s, es[0]);
      }
      AccessFitsThroughout(Step(s, es[0]), es[1..]);
    }
  }

  // ------------------------------------------------------------- the server

  class Server {
    const standalone: bool
    var clients: seq<Client>
    var acl: seq<int>
    var maxClients: int
    /** The users the X server lets in. */
    var access: set<int>
    var ssmOpen: bool

    ghost function View(): State
      reads this
    {
      State(clients, acl, maxClients, access)
    }

    constructor (standalone: bool, uid: int, acl: seq<int>, maxClients: int)
      ensures this.standalone == standalone && clients == [Client(-1, uid)] && this.acl == acl && this.maxClients == maxClients
      ensures access == {} && ssmOpen
    {
      this.standalone, clients, this.acl, this.maxClients, access, ssmOpen := standalone, [Client(-1, uid)], acl, maxClients, {}, true;
    }

    /** Erase one client; its user loses access if no connection of theirs remains. */
    method EraseClient(i: nat, failing: set<int>)
      requires i < |clients|
      modifies this`clients, this`access
      ensures clients == WithoutClient(old(clients), i) && access == AccessWithout(old(clients), i, old(access), failing)
    {
      var uid := clients[i].uid;
      clients := clients[..i] + clients[i + 1..];
      var remains := StillConnected(clients, uid);
      if !remains && uid !in failing { access := access - {uid}; }
    }

    /** Forget the clients whose connections were closed, and take access away from users
        who have no connection left. */
    method DropClients(ready: set<int>, failing: set<int>)
      modifies this`clients, this`access
      ensures View() == Step(old(View()), Drop(ready, failing))
    {
      ghost var cs, access0 := clients, access;
      var erase := FindGone(clients, ready);
      for n := 0 to |erase|
        invariant Dropping(cs, ready, failing, erase, access0, n, clients, access)
      {
        DroppingNext(cs, ready, failing, erase, access0, n, clients, access);
        EraseClient(erase[n], failing);
      }
      AllErased(cs, ready, erase);
      AllRevoked(cs, ready, erase, failing);
    }

    /** Answer a request to connect. Unless the server stands alone it first gets the
        access list and the limit anew. works says whether giving access succeeds. */
    method Connect(fromParent: bool, uid: int, fd: int, config: Option<(seq<int>, Option<int>)>, works: bool) returns (s: Status)
      requires config.Some? <==> !standalone
      modifies this`clients, this`acl, this`maxClients, this`access
      ensures acl == if config.Some? then config.value.0 else old(acl)
      ensures maxClients == if config.Some? && config.value.1.Some? then config.value.1.value else old(maxClients)
      ensures var e := Join(fromParent, uid, fd, acl, maxClients, works);
              s == AnswerTo(old(View()), e) && View() == Step(old(View()), e)
    {
      if config.Some? {
        acl := config.value.0;
        if config.value.1.Some? { maxClients := config.value.1.value; }
      }
      if fromParent {
        if |clients| == 0 { return Undefined; }
        clients := clients[0 := clients[0].(fd := fd)];
        s := Connected;
      } else {
        s := Decide(clients, acl, maxClients, uid);
        if s == Connected { clients := clients + [Client(fd, uid)]; }
      }
      if s == Connected && works { access := access + {uid}; }
    }
  }
}
