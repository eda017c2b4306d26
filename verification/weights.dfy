/** The weight each node has when it is free: summed up once, from the resources it is
    configured with, and compared ever after with what of it is free. */
module Weights {
  import opened Resources
  import opened Ledger
  import opened Planner
  import opened PlanSound
  import opened PlacementSteps
  import opened WholeNode

  /** The resources on one host. */
  function Located(rs: seq<Res>, host: string): seq<Res> {
    if rs == [] then []
    else Located(rs[..|rs| - 1], host) + if rs[|rs| - 1].Key().host == host then [rs[|rs| - 1]] else []
  }

  lemma WeightsNext(rs: seq<Res>, i: nat)
    requires i < |rs|
    ensures forall h :: TotalWeight(Located(rs[..i + 1], h))
                     == TotalWeight(Located(rs[..i], h)) + if rs[i].Key().host == h then Weight(rs[i]) else 0
  {
    assert rs[..i + 1][..i] == rs[..i];
    forall h
      ensures TotalWeight(Located(rs[..i + 1], h)) == TotalWeight(Located(rs[..i], h)) + if rs[i].Key().host == h then Weight(rs[i]) else 0
    {
      TotalWeightAppend(Located(rs[..i], h), rs[i]);
      assert Located(rs[..i], h) + [] == Located(rs[..i], h);
    }
  }

  /** The hardware on one host, in the order of the table. */
  function HardwareOn(order: seq<Key>, t: Table, host: string): seq<Attrs> {
    if order == [] then []
    else
      var k := order[|order| - 1];
      HardwareOn(order[..|order| - 1], t, host) + if k in t && k.host == host then [t[k].attrs] else []
  }

  /** Each node's weight when free is what its hardware weighs. */
  ghost predicate Weighed(t: Table, site: Site) {
    && (forall k <- t :: k in site.order)
    && forall k <- t :: k.host in site.whenFree && site.whenFree[k.host] == WeightOfAll(HardwareOn(site.order, t, k.host))
  }

  ghost predicate PositiveWeights(t: Table) { forall k <- t :: 0 < BaseWeight(t[k].attrs) }

  lemma {:induction false} HardwareIs(order: seq<Key>, t: Table, host: string)
    requires SafeTable(t) && NoDuplicates(order)
    ensures var hw := HardwareOn(order, t, host);
            && DistinctKeys(hw)
            && (forall a :: a in hw <==> a.key in order && a.key in t && a.key.host == host && t[a.key].attrs == a)
  {
    if order != [] {
      var n := |order| - 1;
      HardwareIs(order[..n], t, host);
      var k, hw := order[n], HardwareOn(order[..n], t, host);
      assert order == order[..n] + [k];
      assert k !in order[..n];
      if k in t && k.host == host {
        assert t[k].Key() == k;
        forall i, j | 0 <= i < j < |hw + [t[k].attrs]|
          ensures (hw + [t[k].attrs])[i].key != (hw + [t[k].attrs])[j].key
        {
          if j == |hw| { assert hw[i] in hw; }
        }
      }
    }
  }

  /** Weights stay right as long as the hardware is the same. */
  lemma {:induction false} HardwareStays(order: seq<Key>, t: Table, u: Table, host: string)
    requires SameHardware(t, u)
    ensures HardwareOn(order, u, host) == HardwareOn(order, t, host)
  {
    if order != [] { HardwareStays(order[..|order| - 1], t, u, host); }
  }

  lemma WeighedStays(t: Table, u: Table, site: Site)
    requires SameHardware(t, u) && Weighed(t, site)
    ensures Weighed(u, site)
    ensures PositiveWeights(t) ==> PositiveWeights(u)
  {
    forall k <- u
      ensures site.whenFree[k.host] == WeightOfAll(HardwareOn(site.order, u, k.host))
    {
      HardwareStays(site.order, t, u, k.host);
    }
  }

  ghost predicate NoneOwned(rs: seq<Res>) { forall r <- rs :: r.owners == [] }

  lemma {:induction false} WeightOfAllAppend(hw: seq<Attrs>, a: Attrs)
    ensures WeightOfAll(hw + [a]) == WeightOfAll(hw) + BaseWeight(a)
  {
    if hw == [] {
      assert hw + [a] == [a] && [a][1..] == [];
    } else {
      assert (hw + [a])[0] == hw[0] && (hw + [a])[1..] == hw[1..] + [a];
      WeightOfAllAppend(hw[1..], a);
    }
  }

  /** The table holds these resources in this order, and nobody uses any. */
  ghost predicate Unused(rs: seq<Res>, order: seq<Key>, t: Table) {
    && |order| == |rs| && (forall k <- t :: k in order)
    && forall j | 0 <= j < |rs| :: order[j] == rs[j].Key() && Safe(rs[j]) && rs[j].owners == [] && order[j] in t && t[order[j]] == rs[j]
  }

  /** The first n resources weigh, on a host, what their hardware weighs. */
  ghost predicate WeighAlike(rs: seq<Res>, order: seq<Key>, t: Table, host: string, n: nat)
    requires n <= |rs| && n <= |order|
  {
    TotalWeight(Located(rs[..n], host)) == WeightOfAll(HardwareOn(order[..n], t, host))
  }

  /** Unused resources weigh what their hardware weighs. */
  lemma {:induction false} UnusedWeigh(rs: seq<Res>, order: seq<Key>, t: Table, host: string, n: nat)
    requires Unused(rs, order, t) && n <= |rs|
    ensures WeighAlike(rs, order, t, host, n)
  {
    if n > 0 {
      UnusedWeigh(rs, order, t, host, n - 1);
      UnusedWeighNext(rs, order, t, host, n - 1);
    }
  }

  lemma UnusedWeighNext(rs: seq<Res>, order: seq<Key>, t: Table, host: string, n: nat)
    requires Unused(rs, order, t) && n < |rs| && WeighAlike(rs, order, t, host, n)
    ensures WeighAlike(rs, order, t, host, n + 1)
  {
    WeightsNext(rs, n);
    WeightSplits(rs[n]);
    HardwareNext(order, t, host, n);
    WeightOfAllAppend(HardwareOn(order[..n], t, host), rs[n].attrs);
  }

  lemma HardwareNext(order: seq<Key>, t: Table, host: string, n: nat)
    requires n < |order| && order[n] in t
    ensures var hw, k := HardwareOn(order[..n], t, host), order[n];
            HardwareOn(order[..n + 1], t, host) == if k.host == host then hw + [t[k].attrs] else hw
  {
    var hw := HardwareOn(order[..n], t, host);
    assert order[..n + 1][..n] == order[..n] && order[..n + 1][n] == order[n];
    assert hw + [] == hw;
  }

  lemma UnusedIsWeighed(rs: seq<Res>, t: Table, site: Site)
    requires Unused(rs, site.order, t)
    requires forall k <- t :: k.host in site.whenFree && site.whenFree[k.host] == TotalWeight(Located(rs, k.host))
    ensures Weighed(t, site)
  {
    assert rs[..|rs|] == rs && site.order[..|rs|] == site.order;
    forall k <- t
      ensures site.whenFree[k.host] == WeightOfAll(HardwareOn(site.order, t, k.host))
    {
      UnusedWeigh(rs, site.order, t, k.host, |rs|);
    }
  }
}
