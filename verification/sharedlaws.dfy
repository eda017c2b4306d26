/** What each answer of a shared X server means, and what becomes of a connection: it is
    recorded when it is made, lasts until it is closed, and is then forgotten. */
module SharedLaws {
  import opened Resources
  import opened SharedServer

  // ---------------------------------------------------------------- answers

  /** The user has a connection for each of his entries in the list. */
  ghost predicate UsedUp(cs: seq<Client>, acl: seq<int>, uid: int) { Count(cs, uid) >= multiset(acl)[uid] }

  /** Some user has more connections than entries. */
  ghost predicate Overdrawn(cs: seq<Client>, acl: seq<int>) { exists u :: Count(cs, u) > multiset(acl)[u] }

  /** One who asks to connect is refused for the limit exactly if there are that many
      clients; as a stranger if he is not listed; as connected already if he has used up
      his entries; and let in otherwise. A list of -1 alone lets everyone in. If some user
      has more connections than entries the code erases past the end of a list. */
  lemma AnswersMean(cs: seq<Client>, acl: seq<int>, limit: int, uid: int)
    ensures var a := Admission(cs, acl, limit, uid);
            && (a == LimitReached <==> |cs| == limit)
            && (a == Denied <==> |cs| != limit && acl != [-1] && uid !in acl)
            && (a == Undefined <==> |cs| != limit && acl != [-1] && uid in acl && Overdrawn(cs, acl))
            && (a == AlreadyConnected <==> |cs| != limit && acl != [-1] && uid in acl && !Overdrawn(cs, acl) && UsedUp(cs, acl, uid))
            && (a == Connected <==> |cs| != limit && (acl == [-1] || (uid in acl && !Overdrawn(cs, acl) && !UsedUp(cs, acl, uid))))
  {
    if u :| Count(cs, u) > multiset(acl)[u] { assert !(Count(cs, u) <= Entries(acl, u)); }
  }

  // ------------------------------------------------------------- connecting

  /** One who is let in is recorded, with his connection, after those who are there. */
  lemma ConnectedIsRecorded(s: State, e: Event)
    requires e.Join? && !e.fromParent && AnswerTo(s, e) == Connected
    ensures var n, s' := |s.clients|, Step(s, e);
            && |s'.clients| == n + 1 && (forall i | 0 <= i < n :: s'.clients[i] == s.clients[i])
            && s'.clients[n].fd == e.fd && s'.clients[n].uid == e.uid
            && (forall u :: u in s'.access <==> u in s.access || (u == e.uid && e.works))
            && s'.acl == e.acl && s'.limit == e.limit
  {
  }

  /** The invoking process takes over the first entry and keeps its user. */
  lemma ParentIsRecorded(s: State, e: Event)
    requires e.Join? && e.fromParent && s.clients != []
    ensures var s' := Step(s, e);
            && |s'.clients| == |s.clients| && (forall i | 1 <= i < |s.clients| :: s'.clients[i] == s.clients[i])
            && s'.clients[0].fd == e.fd && s'.clients[0].uid == s.clients[0].uid
            && (forall u :: u in s'.access <==> u in s.access || (u == e.uid && e.works))
            && s'.acl == e.acl && s'.limit == e.limit
  {
  }

  /** One who is refused leaves his list and limit, and nothing else. */
  lemma RefusedIsForgotten(s: State, e: Event)
    requires e.Join? && AnswerTo(s, e) != Connected
    ensures var s' := Step(s, e); s'.clients == s.clients && s'.access == s.access && s'.acl == e.acl && s'.limit == e.limit
  {
  }

  // ---------------------------------------------------------------- closing

  predicate ClosedBy(c: Client, ready: set<int>) { c.fd in ready && c.fd != -1 }

  /** An order-preserving choice: at[i] is where the i-th of those left was. */
  ghost predicate Chosen(cs: seq<Client>, left: seq<Client>, at: seq<nat>) {
    && |at| == |left| && (forall i | 0 <= i < |at| :: at[i] < |cs| && cs[at[i]] == left[i])
    && (forall i, j | 0 <= i < j < |at| :: at[i] < at[j])
  }

  lemma {:induction false} RemainingChosen(cs: seq<Client>, ready: set<int>) returns (at: seq<nat>)
    ensures Chosen(cs, Remaining(cs, ready), at)
    ensures forall i | 0 <= i < |cs| :: i in at <==> !ClosedBy(cs[i], ready)
  {
    if cs == [] {
      at := [];
    } else {
      var later := RemainingChosen(cs[1..], ready);
      var moved := seq(|later|, i requires 0 <= i < |later| => later[i] + 1);
      at := (if ClosedBy(cs[0], ready) then [] else [0]) + moved;
      MovedIndices(cs, ready, later, moved, at);
    }
  }

  lemma MovedIndices(cs: seq<Client>, ready: set<int>, later: seq<nat>, moved: seq<nat>, at: seq<nat>)
    requires cs != [] && |moved| == |later| && forall i | 0 <= i < |later| :: moved[i] == later[i] + 1
    requires forall i | 0 <= i < |later| :: later[i] < |cs| - 1
    requires forall i | 0 <= i < |cs[1..]| :: i in later <==> !ClosedBy(cs[1..][i], ready)
    requires at == (if ClosedBy(cs[0], ready) then [] else [0]) + moved
    ensures forall i | 0 <= i < |cs| :: i in at <==> !ClosedBy(cs[i], ready)
  {
    forall i | 0 <= i < |cs|
      ensures i in at <==> !ClosedBy(cs[i], ready)
    {
      if i > 0 {
        assert cs[1..][i - 1] == cs[i];
        if i - 1 in later { var k :| 0 <= k < |later| && later[k] == i - 1; assert moved[k] == i; }
        if i in moved { var k :| 0 <= k < |moved| && moved[k] == i; assert later[k] == i - 1; }
      } else {
        assert 0 !in moved;
      }
    }
  }

  ghost predicate KeepsAccess(cs: seq<Client>, left: seq<Client>, ready: set<int>, failing: set<int>, u: int) {
    u in failing || (forall c <- cs :: ClosedBy(c, ready) ==> c.uid != u) || exists c <- left :: c.uid == u
  }

  /** Closing connections takes exactly the clients behind them off the list and leaves
      the others in order. A user keeps access exactly if taking it away fails, none of
      his connections was closed, or an entry of his is left. */
  lemma ClosedAreGone(s: State, ready: set<int>, failing: set<int>) returns (at: seq<nat>)
    ensures var s' := Step(s, Drop(ready, failing));
            && Chosen(s.clients, s'.clients, at) && (forall i | 0 <= i < |s.clients| :: i in at <==> !ClosedBy(s.clients[i], ready))
            && (forall c <- s'.clients :: !(c.fd in ready && c.fd != -1))
            && (forall u :: u in s'.access <==> u in s.access && KeepsAccess(s.clients, s'.clients, ready, failing, u))
            && s'.acl == s.acl && s'.limit == s.limit
  {
    at := RemainingChosen(s.clients, ready);
    RemainingMembers(s.clients, ready);
    var s' := Step(s, Drop(ready, failing));
    forall u
      ensures u in Revoked(s.clients, ready, failing) <==>
                u !in failing && (exists c <- s.clients :: ClosedBy(c, ready) && c.uid == u) && !(exists c <- s'.clients :: c.uid == u)
    {
      if c :| c in s.clients && ClosedBy(c, ready) && c.uid == u { assert Gone(c, ready); }
    }
  }

  // ------------------------------------------------------------------ laws

  /** Connecting and closing the connection leaves the clients as they were, and takes
      away the access it gave, unless the user has another entry or that fails. */
  lemma ConnectThenClose(s: State, e: Event, failing: set<int>)
    requires e.Join? && !e.fromParent && AnswerTo(s, e) == Connected && e.fd != -1 && forall c <- s.clients :: c.fd != e.fd
    ensures var s' := Step(Step(s, e), Drop({e.fd}, failing));
            && s'.clients == s.clients
            && (forall u | u != e.uid :: u in s'.access <==> u in s.access)
            && (!HasUser(s.clients, e.uid) && e.uid !in failing ==> e.uid !in s'.access)
            && (HasUser(s.clients, e.uid) || e.uid in failing ==> (e.uid in s'.access <==> e.uid in s.access || e.works))
  {
    var now := Step(s, e);
    var c := Client(e.fd, e.uid);
    NothingGone(s.clients, {e.fd});
    RemainingConcat(s.clients, [c], {e.fd});
    assert [c][1..] == [] && Remaining([c], {e.fd}) == [];
    assert now.clients == s.clients + [c] && c in now.clients;
    assert s.clients + [] == s.clients;
    var at := ClosedAreGone(now, {e.fd}, failing);
    assert forall d <- now.clients :: ClosedBy(d, {e.fd}) ==> d == c;
  }

  /** No event of the run closes this connection, and the invoking process does not
      connect. */
  predicate Undisturbed(es: seq<Event>, fd: int) {
    forall e <- es :: if e.Drop? then fd !in e.ready else !e.fromParent
  }

  /** A connection lasts until it is closed. */
  lemma {:induction false} ConnectionLasts(s: State, es: seq<Event>, c: Client)
    requires c in s.clients && Undisturbed(es, c.fd)
    ensures c in Run(s, es).clients
    decreases |es|
  {
    if es != [] {
      assert es[0] in es;
      if es[0].Drop? { RemainingMembers(s.clients, es[0].ready); }
      ConnectionLasts(Step(s, es[0]), es[1..], c);
    }
  }

  /** Someone connected on fd along the run. */
  ghost predicate ConnectedOn(s: State, es: seq<Event>, fd: int)
    decreases |es|
  {
    es != [] && ((es[0].Join? && es[0].fd == fd && AnswerTo(s, es[0]) == Connected) || ConnectedOn(Step(s, es[0]), es[1..], fd))
  }

  /** A connection the list has at the end was there at first or was made on the way. */
  lemma {:induction false} ConnectionsAreMade(s: State, es: seq<Event>, c: Client)
    requires c in Run(s, es).clients
    ensures (exists d <- s.clients :: d.fd == c.fd) || ConnectedOn(s, es, c.fd)
    decreases |es|
  {
    if es != [] {
      var s' := Step(s, es[0]);
      ConnectionsAreMade(s', es[1..], c);
      if es[0].Drop? { RemainingMembers(s.clients, es[0].ready); }
      if d :| d in s'.clients && d.fd == c.fd { StepMakes(s, es[0], d); }
    }
  }

  lemma StepMakes(s: State, e: Event, d: Client)
    requires d in Step(s, e).clients
    ensures (exists b <- s.clients :: b.fd == d.fd) || (e.Join? && e.fd == d.fd && AnswerTo(s, e) == Connected)
  {
    match e {
      case Drop(ready, failing) => RemainingMembers(s.clients, ready);
      case Join(fromParent, _, fd, _, _, _) =>
        var cs := Step(s, e).clients;
        var i :| 0 <= i < |cs| && cs[i] == d;
        if i < |s.clients| && s.clients[i] == d { assert d in s.clients; }
    }
  }

  /** Once a connection is closed nobody is recorded with it until someone connects on it
      anew. */
  lemma ClosedStaysClosed(s: State, ready: set<int>, failing: set<int>, es: seq<Event>, fd: int)
    requires fd in ready && fd != -1 && !ConnectedOn(Step(s, Drop(ready, failing)), es, fd)
    ensures forall c <- Run(Step(s, Drop(ready, failing)), es).clients :: c.fd != fd
  {
    var s' := Step(s, Drop(ready, failing));
    RemainingMembers(s.clients, ready);
    forall c <- Run(s', es).clients
      ensures c.fd != fd
    {
      ConnectionsAreMade(s', es, c);
    }
  }
}
