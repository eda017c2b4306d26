/** Whole runs of the allocator: any sequence of requests and frees, by any users,
    with any nodes down and any answers of the schedulers, is a run of the ledger. */
module Runs {
  import opened Resources
  import opened Ledger
  import opened Matchers
  import opened Planner
  import opened PlanTheorem
  import opened PlanSound
  import opened Requests
  import opened Commit
  import opened Allocating
  import opened Weights
  import opened WholePick

  datatype Config = Config(order: seq<Key>, nodes: map<string, NodeInfo>, whenFree: map<string, int>, schedulers: seq<Scheduler>)

  datatype Call =
    | Request(items: seq<Item<Req>>, uid: nat, candidates: set<string>, unusable: set<string>, answers: seq<bool>)
    | Free(index: nat)

  predicate WellTyped(cfg: Config, c: Call) { c.Request? ==> |c.answers| == |cfg.schedulers| }

  function Answer(cfg: Config, t: Table, c: Call): (Outcome<seq<Item<Res>>>, Table)
    requires WellTyped(cfg, c) && c.Request?
  {
    Perform(t, Site(cfg.order, cfg.nodes, cfg.whenFree, c.unusable, c.candidates), c.items, c.uid, cfg.schedulers, c.answers)
  }

  /** What one call does to the table and the allocations. */
  function Served(cfg: Config, s: State, c: Call): State
    requires WellTyped(cfg, c)
  {
    match c
    case Request(_, _, _, _, _) =>
      var r := Answer(cfg, s.table, c);
      State(r.1, if r.0.Done? then s.live + [Held(c.uid, HeldKeys(r.0.value))] else s.live)
    case Free(i) =>
      if i < |s.live| && s.live[i].Held? then
        var f := FreeKeys(s.table, s.live[i].keys, s.live[i].uid);
        State(f.table, if f.ok then s.live[i := Released] else s.live)
      else s
  }

  function RunCalls(cfg: Config, s: State, cs: seq<Call>): State
    requires forall c <- cs :: WellTyped(cfg, c)
    decreases |cs|
  {
    if cs == [] then s else RunCalls(cfg, Served(cfg, s, cs[0]), cs[1..])
  }

  /** Fairness of a request, judged by the hardware alone. */
  ghost predicate FairCall(init: Table, cfg: Config, c: Call) { c.Request? ==> Fair(init, c.items, cfg.schedulers) }

  lemma FairOnSameHardware(init: Table, t: Table, items: seq<Item<Req>>, schedulers: seq<Scheduler>)
    requires SafeTable(t) && SameHardware(init, t) && Fair(init, items, schedulers)
    ensures Fair(t, items, schedulers)
  {
    if exists g <- ExpandAll(items) :: g.Node? { StaysSelfMatching(init, t); }
  }

  /** One fair call is at most one step of the ledger. */
  lemma CallIsLedgerStep(init: Table, cfg: Config, s: State, c: Call) returns (es: seq<Event>)
    requires WellTyped(cfg, c) && NoDuplicates(cfg.order) && FairCall(init, cfg, c) && Conserved(init, s)
    ensures |es| <= 1 && Served(cfg, s, c) == Run(s, es)
  {
    match c {
      case Free(i) =>
        es := [Give(i)];
        if i < |s.live| && s.live[i].Held? {
          GiveConserves(init, s, i);
          FreeKeysIs(s.table, s.live[i].keys, s.live[i].uid);
        }
      case Request(items, uid, candidates, unusable, answers) =>
        var site := Site(cfg.order, cfg.nodes, cfg.whenFree, unusable, candidates);
        FairOnSameHardware(init, s.table, items, cfg.schedulers);
        FairRequestIsAtomic(s.table, site, items, uid, cfg.schedulers, answers);
        var r := Perform(s.table, site, items, uid, cfg.schedulers, answers);
        if r.0.Done? {
          PerformIsTake(s.table, site, items, uid, cfg.schedulers, answers, s.live);
          es := [Take(uid, GrantsOf(Concat(Plan(s.table, site, ExpandAll(items), uid).value)))];
        } else {
          es := [];
        }
    }
  }

  lemma {:induction false} RunAppend(s: State, es: seq<Event>, fs: seq<Event>)
    ensures Run(s, es + fs) == Run(Run(s, es), fs)
    decreases |es|
  {
    if es == [] {
      assert es + fs == fs;
    } else {
      assert (es + fs)[0] == es[0] && (es + fs)[1..] == es[1..] + fs;
      RunAppend(Next(s, es[0]), es[1..], fs);
    }
  }

  /** Every run of fair requests and frees is a run of the ledger, so owners are
      conserved and sharing is safe in every state it reaches. */
  lemma {:induction false} RunsRefineLedger(init: Table, cfg: Config, s: State, cs: seq<Call>) returns (es: seq<Event>)
    requires (forall c <- cs :: WellTyped(cfg, c) && FairCall(init, cfg, c)) && NoDuplicates(cfg.order) && Conserved(init, s)
    ensures RunCalls(cfg, s, cs) == Run(s, es)
    ensures Conserved(init, RunCalls(cfg, s, cs))
    decreases |cs|
  {
    es := [];
    if cs != [] {
      assert cs[0] in cs;
      var now := CallIsLedgerStep(init, cfg, s, cs[0]);
      RunsConserve(init, s, now);
      var later := RunsRefineLedger(init, cfg, Served(cfg, s, cs[0]), cs[1..]);
      RunAppend(s, now, later);
      es := now + later;
    }
  }

  /** After any run of fair requests in which every allocation has been freed, in
      whatever order, the table is exactly the one the allocator started with. */
  lemma AllFreedRestores(init: Table, cfg: Config, cs: seq<Call>)
    requires SafeTable(init) && Unowned(init) && NoDuplicates(cfg.order)
    requires forall c <- cs :: WellTyped(cfg, c) && FairCall(init, cfg, c)
    requires forall h <- RunCalls(cfg, State(init, []), cs).live :: h.Released?
    ensures RunCalls(cfg, State(init, []), cs).table == init
  {
    var es := RunsRefineLedger(init, cfg, State(init, []), cs);
    FreeingAllRestores(init, es);
  }

  /** Sharing is safe in every state of every run, fair or not. */
  lemma {:induction false} SharingSafeThroughout(cfg: Config, s: State, cs: seq<Call>)
    requires (forall c <- cs :: WellTyped(cfg, c)) && SafeTable(s.table)
    ensures SafeTable(RunCalls(cfg, s, cs).table) && SameHardware(s.table, RunCalls(cfg, s, cs).table)
    decreases |cs|
  {
    if cs != [] {
      assert cs[0] in cs;
      var s' := Served(cfg, s, cs[0]);
      match cs[0] {
        case Request(items, uid, candidates, unusable, answers) =>
          PerformStaysSafe(s.table, Site(cfg.order, cfg.nodes, cfg.whenFree, unusable, candidates), items, uid, cfg.schedulers, answers);
        case Free(i) =>
          if i < |s.live| && s.live[i].Held? { FreeingStaysSafe(s.table, s.live[i].keys, s.live[i].uid); }
      }
      SharingSafeThroughout(cfg, s', cs[1..]);
    }
  }

  /** If nodes were weighed while nothing was in use and everything has weight, a node
      that a plan picks as whole is whole, in every state of every run. */
  lemma WholeNodesThroughout(init: Table, cfg: Config, cs: seq<Call>, site: Site, groups: seq<Group>, i: nat, uid: nat)
    returns (a: NodeAvail)
    requires (forall c <- cs :: WellTyped(cfg, c)) && SafeTable(init) && NoDuplicates(cfg.order)
    requires site.order == cfg.order && Weighed(init, site) && PositiveWeights(init)
    requires var plan := Plan(RunCalls(cfg, State(init, []), cs).table, site, groups, uid); plan.Done? && i < |groups| && groups[i].Node?
    ensures var t := RunCalls(cfg, State(init, []), cs).table;
            i < |Plan(t, site, groups, uid).value| && AllOfNode(t, a.name, Plan(t, site, groups, uid).value[i])
  {
    var t := RunCalls(cfg, State(init, []), cs).table;
    SharingSafeThroughout(cfg, State(init, []), cs);
    WeighedStays(init, t, site);
    a := NodePickIsWhole(t, site, groups, i, uid);
  }
}
