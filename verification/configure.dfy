/** Setting up the allocator from the configured nodes: the table of resources, and what
    each node weighs when it is free. */
module Configuration {
  import opened Resources
  import opened Ledger
  import opened Planner
  import opened PlanSound
  import opened WholeNode
  import opened Weights
  import opened Allocating
  import opened MetaschedulerObjects

  /** A configured node. */
  datatype VizNode = VizNode(name: string, info: NodeInfo, resources: seq<VizResource>)

  function States(rs: seq<VizResource>): seq<Res>
    reads rs
  {
    seq(|rs|, i requires 0 <= i < |rs| reads rs => rs[i].State())
  }

  function AllResources(decls: seq<VizNode>): seq<VizResource> {
    if decls == [] then [] else AllResources(decls[..|decls| - 1]) + decls[|decls| - 1].resources
  }

  /** No two resources have the same key. */
  ghost predicate KeysDiffer(rs: seq<VizResource>) { forall i, j | 0 <= i < j < |rs| :: rs[i].attrs.key != rs[j].attrs.key }

  /** The keys of some resources, in the order they first appear. */
  function KeysInTurn(rs: seq<VizResource>): seq<Key> {
    if rs == [] then []
    else
      var n := |rs| - 1;
      var keys := KeysInTurn(rs[..n]);
      if rs[n].attrs.key in keys then keys else keys + [rs[n].attrs.key]
  }

  /** r is the last of the resources that has this key. */
  ghost predicate LastWith(rs: seq<VizResource>, k: Key, r: VizResource) {
    r.attrs.key == k && exists j | 0 <= j < |rs| :: rs[j] == r && forall i | j < i < |rs| :: rs[i].attrs.key != k
  }

  /** The table has, under each key, the last of these resources that has it. */
  ghost predicate Tabled(rs: seq<VizResource>, table: map<Key, VizResource>, keys: seq<Key>) {
    && keys == KeysInTurn(rs) && (forall k :: k in table <==> k in keys)
    && (forall r <- rs :: r.attrs.key in table) && (forall k <- table :: LastWith(rs, k, table[k]))
  }

  lemma LastNext(rs: seq<VizResource>, i: nat, k: Key, r: VizResource)
    requires i < |rs| && LastWith(rs[..i], k, r) && rs[i].attrs.key != k
    ensures LastWith(rs[..i + 1], k, r)
  {
    var before, now := rs[..i], rs[..i + 1];
    var j :| 0 <= j < i && before[j] == r && forall n | j < n < i :: before[n].attrs.key != k;
    assert now[j] == r;
    forall n | j < n < i + 1
      ensures now[n].attrs.key != k
    {
      if n < i { assert before[n] == rs[n]; }
    }
  }

  lemma TabledNext(rs: seq<VizResource>, table: map<Key, VizResource>, keys: seq<Key>, i: nat)
    requires i < |rs| && Tabled(rs[..i], table, keys)
    ensures var k := rs[i].attrs.key; Tabled(rs[..i + 1], table[k := rs[i]], if k in table then keys else keys + [k])
  {
    var k, now := rs[i].attrs.key, rs[..i + 1];
    assert now[..i] == rs[..i] && now == rs[..i] + [rs[i]];
    var table' := table[k := rs[i]];
    forall l <- table'
      ensures LastWith(now, l, table'[l])
    {
      if l == k { assert now[i] == rs[i]; } else { LastNext(rs, i, l, table[l]); }
    }
  }

  lemma {:induction false} KeysInTurnDiffer(rs: seq<VizResource>)
    ensures NoDuplicates(KeysInTurn(rs))
    ensures KeysDiffer(rs) ==> |KeysInTurn(rs)| == |rs| && forall j | 0 <= j < |rs| :: KeysInTurn(rs)[j] == rs[j].attrs.key
  {
    if rs != [] {
      var n := |rs| - 1;
      KeysInTurnDiffer(rs[..n]);
      if KeysDiffer(rs) {
        assert forall j | 0 <= j < n :: rs[..n][j] == rs[j];
        assert rs[n].attrs.key !in KeysInTurn(rs[..n]);
      }
    }
  }

  lemma TabledOwnsKeys(rs: seq<VizResource>, table: map<Key, VizResource>, keys: seq<Key>)
    requires Tabled(rs, table, keys)
    ensures NoDuplicates(keys)
    ensures forall k <- table :: table[k].attrs.key == k && table[k] in rs
  {
    KeysInTurnDiffer(rs);
    forall k <- table
      ensures table[k].attrs.key == k && table[k] in rs
    {
      assert LastWith(rs, k, table[k]);
    }
  }

  function NamesOf(decls: seq<VizNode>): set<string> { set d | d in decls :: d.name }

  /** The resources of all nodes, and a weight of zero for each node. */
  method CollectResources(decls: seq<VizNode>) returns (all: seq<VizResource>, weights: map<string, int>, infos: map<string, NodeInfo>)
    requires forall r <- AllResources(decls) :: Safe(r.State())
    ensures all == AllResources(decls) && (forall r <- all :: Safe(r.State())) && States(all) == old(States(AllResources(decls)))
    ensures weights.Keys == NamesOf(decls)
    ensures forall h <- weights :: weights[h] == 0
  {
    all, weights, infos := [], map[], map[];
    for n := 0 to |decls|
      invariant all == AllResources(decls[..n])
      invariant weights.Keys == NamesOf(decls[..n])
      invariant forall h <- weights :: weights[h] == 0
    {
      assert decls[..n + 1][..n] == decls[..n] && decls[..n + 1] == decls[..n] + [decls[n]];
      weights := weights[decls[n].name := 0];
      all := all + decls[n].resources;
      infos := infos[decls[n].name := decls[n].info];
    }
    assert decls[..|decls|] == decls;
  }

  /** Enter all resources into the table. */
  method BuildTable(all: seq<VizResource>) returns (table: map<Key, VizResource>, keys: seq<Key>)
    requires forall r <- all :: Safe(r.State())
    ensures Tabled(all, table, keys) && InOrder(table, keys, Snapshot(table)) && States(all) == old(States(all))
  {
    table, keys := map[], [];
    for i := 0 to |all|
      invariant Tabled(all[..i], table, keys)
    {
      TabledNext(all, table, keys, i);
      var k := all[i].attrs.key;
      if k !in table { keys := keys + [k]; }
      table := table[k := all[i]];
    }
    assert all[..|all|] == all;
    TabledInOrder(all, table, keys);
  }

  /** Each node weighs what the first n of these resources on it weigh. */
  ghost predicate SummedTo(all: seq<Res>, n: nat, weights: map<string, int>)
    requires n <= |all|
  {
    forall h <- weights :: weights[h] == TotalWeight(Located(all[..n], h))
  }

  lemma SummedNext(all: seq<Res>, n: nat, weights: map<string, int>)
    requires n < |all| && SummedTo(all, n, weights) && all[n].Key().host in weights
    ensures var h := all[n].Key().host; SummedTo(all, n + 1, weights[h := weights[h] + Weight(all[n])])
  {
    WeightsNext(all, n);
  }

  ghost predicate Adding(all: seq<Res>, n: nat, zero: map<string, int>, weights: map<string, int>)
    requires n <= |all|
  {
    (forall j | 0 <= j < n :: all[j].Key().host in zero) && weights.Keys == zero.Keys && SummedTo(all, n, weights)
  }

  lemma AddingStarts(all: seq<Res>, zero: map<string, int>)
    requires forall h <- zero :: zero[h] == 0
    ensures Adding(all, 0, zero, zero)
  {
    assert all[..0] == [];
  }

  lemma AddingNext(all: seq<Res>, n: nat, zero: map<string, int>, weights: map<string, int>)
    requires n < |all| && Adding(all, n, zero, weights)
    ensures var h := all[n].Key().host; h in zero ==> h in weights && Adding(all, n + 1, zero, weights[h := weights[h] + Weight(all[n])])
  {
    if all[n].Key().host in zero { SummedNext(all, n, weights); }
  }

  /** Add the weight of each resource to its node's; fails for one on no such node. */
  method AddWeights(all: seq<Res>, zero: map<string, int>) returns (ok: bool, weights: map<string, int>)
    requires forall h <- zero :: zero[h] == 0
    ensures ok <==> forall r <- all :: r.Key().host in zero
    ensures ok ==> weights.Keys == zero.Keys && SummedTo(all, |all|, weights)
  {
    weights := zero;
    AddingStarts(all, zero);
    for i := 0 to |all|
      invariant Adding(all, i, zero, weights)
    {
      var host := all[i].Key().host;
      if host !in weights {
        assert all[i] in all;
        return false, weights;
      }
      AddingNext(all, i, zero, weights);
      weights := weights[host := weights[host] + Weight(all[i])];
    }
    ok := true;
  }

  lemma TabledInOrder(rs: seq<VizResource>, table: map<Key, VizResource>, keys: seq<Key>)
    requires Tabled(rs, table, keys) && forall r <- rs :: Safe(r.State())
    ensures InOrder(table, keys, Snapshot(table))
  {
    TabledOwnsKeys(rs, table, keys);
  }

  /** Each resource is on a declared node. */
  ghost predicate Declared(decls: seq<VizNode>) {
    forall r <- AllResources(decls) :: exists d <- decls :: d.name == r.attrs.key.host
  }

  ghost predicate Named(decls: seq<VizNode>, weights: map<string, int>) { forall d <- decls :: d.name in weights }

  /** Each node weighs what these resources on it weigh. */
  ghost predicate Summed(rs: seq<Res>, weights: map<string, int>) {
    (forall r <- rs :: r.Key().host in weights) && forall h <- weights :: weights[h] == TotalWeight(Located(rs, h))
  }

  lemma DeclaredAreNamed(decls: seq<VizNode>, rs: seq<Res>)
    requires |rs| == |AllResources(decls)| && forall i | 0 <= i < |rs| :: rs[i].Key() == AllResources(decls)[i].attrs.key
    ensures Declared(decls) <==> forall r <- rs :: r.Key().host in NamesOf(decls)
  {
    var all := AllResources(decls);
    if Declared(decls) {
      forall r <- rs
        ensures r.Key().host in NamesOf(decls)
      {
        var i :| 0 <= i < |all| && rs[i] == r;
        assert all[i] in all;
      }
    } else {
      var r :| r in all && !exists d <- decls :: d.name == r.attrs.key.host;
      var i :| 0 <= i < |all| && all[i] == r;
      assert rs[i] in rs;
    }
  }

  /** The resources of all nodes, and what each node weighs. */
  method WeighNodes(decls: seq<VizNode>) returns (ok: bool, all: seq<VizResource>, weights: map<string, int>, infos: map<string, NodeInfo>)
    requires forall r <- AllResources(decls) :: Safe(r.State())
    ensures all == AllResources(decls) && (forall r <- all :: Safe(r.State())) && States(all) == old(States(AllResources(decls)))
    ensures ok <==> Declared(decls)
    ensures ok ==> Named(decls, weights) && Summed(States(all), weights)
  {
    var zero;
    all, zero, infos := CollectResources(decls);
    var rs := States(all);
    DeclaredAreNamed(decls, rs);
    ok, weights := AddWeights(rs, zero);
    assert rs[..|rs|] == rs;
  }

  /** The table of a configuration, and what each node weighs when free. */
  method SetUp(decls: seq<VizNode>)
    returns (ok: bool, table: map<Key, VizResource>, keys: seq<Key>, weights: map<string, int>, infos: map<string, NodeInfo>, ghost init: Table)
    requires forall r <- AllResources(decls) :: Safe(r.State())
    ensures ok <==> Declared(decls)
    ensures Tabled(AllResources(decls), table, keys) && InOrder(table, keys, init) && init == Snapshot(table)
    ensures ok ==> Named(decls, weights) && Summed(old(States(AllResources(decls))), weights)
    ensures ok && KeysDiffer(AllResources(decls)) && NoneOwned(old(States(AllResources(decls)))) ==>
              Weighed(init, Site(keys, infos, weights, {}, {}))
  {
    var all;
    ok, all, weights, infos := WeighNodes(decls);
    ghost var rs := States(all);
    table, keys := BuildTable(all);
    init := Snapshot(table);
    if ok { FreshIsWeighed(all, rs, table, keys, weights, infos); }
  }

  /** Weights summed up while nothing is in use are those of the hardware. */
  lemma FreshIsWeighed(all: seq<VizResource>, rs: seq<Res>, table: map<Key, VizResource>, keys: seq<Key>, weights: map<string, int>, infos: map<string, NodeInfo>)
    requires Tabled(all, table, keys) && SafeTable(Snapshot(table)) && rs == States(all) && Summed(rs, weights)
    ensures KeysDiffer(all) && NoneOwned(rs) ==> Weighed(Snapshot(table), Site(keys, infos, weights, {}, {}))
  {
    if KeysDiffer(all) && NoneOwned(rs) {
      FreshIsUnused(all, table, keys);
      SummedIsWeighed(rs, Snapshot(table), Site(keys, infos, weights, {}, {}));
    }
  }

  lemma FreshIsUnused(all: seq<VizResource>, table: map<Key, VizResource>, keys: seq<Key>)
    requires Tabled(all, table, keys) && SafeTable(Snapshot(table)) && KeysDiffer(all) && NoneOwned(States(all))
    ensures Unused(States(all), keys, Snapshot(table))
  {
    var rs := States(all);
    KeysInTurnDiffer(all);
    forall j | 0 <= j < |rs|
      ensures keys[j] == rs[j].Key() && Safe(rs[j]) && rs[j].owners == [] && keys[j] in Snapshot(table) && Snapshot(table)[keys[j]] == rs[j]
    {
      assert all[j] in all && rs[j] in rs;
      assert LastWith(all, keys[j], table[keys[j]]);
      assert Safe(Snapshot(table)[keys[j]]);
    }
  }

  lemma SummedIsWeighed(rs: seq<Res>, t: Table, site: Site)
    requires Unused(rs, site.order, t) && Summed(rs, site.whenFree)
    ensures Weighed(t, site)
  {
    forall k <- t
      ensures k.host in site.whenFree && site.whenFree[k.host] == TotalWeight(Located(rs, k.host))
    {
      var j :| 0 <= j < |rs| && site.order[j] == k;
      assert rs[j] in rs;
    }
    UnusedIsWeighed(rs, t, site);
  }

  /** A metascheduler for the configured nodes: enter all resources into the table, and
      add up what those of each node weigh. A resource of no declared node is an error. */
  method Configure(decls: seq<VizNode>, schedulers: seq<Scheduler>) returns (o: Outcome<Metascheduler>)
    requires forall r <- AllResources(decls) :: Safe(r.State())
    ensures o.Done? <==> Declared(decls)
    ensures o.Done? ==> fresh(o.value) && o.value.Wired() && o.value.Accounted() && o.value.allocations == [] && o.value.schedulers == schedulers
    ensures o.Done? ==> Tabled(AllResources(decls), o.value.infoTable, o.value.order)
    ensures o.Done? ==> Named(decls, o.value.whenFree) && Summed(old(States(AllResources(decls))), o.value.whenFree)
    ensures o.Done? && KeysDiffer(AllResources(decls)) && NoneOwned(old(States(AllResources(decls)))) ==>
              Weighed(o.value.initial, o.value.SiteFor({}, {}))
  {
    var ok, table, keys, weights, infos, init := SetUp(decls);
    if !ok { return Raised(UnknownResource); }
    var m := new Metascheduler(table, keys, infos, weights, schedulers, init);
    o := Done(m);
  }
}
