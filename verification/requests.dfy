/** The shape of requests and of their answers: expanding a nested request into
    lists, and putting the lists that were allocated back into its shape. */
module Requests {
  import opened Resources
  import opened Planner

  /** An item of a request, or of its answer: one resource, a list of resources, an
      aggregate of lists, or a node. A requested node lists what it has to have; a
      node in an answer lists what was allocated on it. */
  datatype Item<T> =
    | Single(x: T)
    | Several(xs: seq<T>)
    | Aggregate(lists: seq<seq<T>>)
    | WholeNode(host: Option<string>, xs: seq<T>)

  function Lists<T>(item: Item<T>): seq<seq<T>> {
    match item
    case Single(x) => [[x]]
    case Several(xs) => [xs]
    case Aggregate(lists) => lists
    case WholeNode(_, xs) => [xs]
  }

  function AllLists<T>(items: seq<Item<T>>): seq<seq<T>> {
    if items == [] then [] else Lists(items[0]) + AllLists(items[1..])
  }

  // -------------------------------------------------------------- expanding

  function ToGroups(lists: seq<seq<Req>>): seq<Group> {
    seq(|lists|, i requires 0 <= i < |lists| => Reqs(lists[i]))
  }

  function Expand(item: Item<Req>): seq<Group> {
    match item
    case WholeNode(host, wants) => [Node(host, wants)]
    case _ => ToGroups(Lists(item))
  }

  function ExpandAll(items: seq<Item<Req>>): seq<Group> {
    if items == [] then [] else Expand(items[0]) + ExpandAll(items[1..])
  }

  lemma {:induction false} ExpandAppend(items: seq<Item<Req>>, item: Item<Req>)
    ensures ExpandAll(items + [item]) == ExpandAll(items) + Expand(item)
  {
    if items == [] {
      assert [item][1..] == [] && Expand(item) + [] == Expand(item);
    } else {
      assert (items + [item])[0] == items[0] && (items + [item])[1..] == items[1..] + [item];
      ExpandAppend(items[1..], item);
    }
  }

  lemma {:induction false} ExpandLength(items: seq<Item<Req>>)
    ensures |ExpandAll(items)| == |AllLists(items)|
  {
    if items != [] { ExpandLength(items[1..]); }
  }

  /** Which lists of the expanded request an item became. */
  datatype Place = At(n: nat) | Span(from: nat, to: nat) {
    function First(): nat { if At? then n else from }
    function Last(): nat { if At? then n + 1 else to }
  }

  /** Where item i starts in the expanded request. */
  function StartOf(items: seq<Item<Req>>, i: nat): nat
    requires i <= |items|
  {
    |ExpandAll(items[..i])|
  }

  lemma StartOfNext(items: seq<Item<Req>>, i: nat)
    requires i < |items|
    ensures StartOf(items, i + 1) == StartOf(items, i) + |Lists(items[i])|
  {
    assert items[..i + 1] == items[..i] + [items[i]];
    ExpandAppend(items[..i], items[i]);
  }

  /** One group for each list of an aggregate. */
  method ExpandLists(lists: seq<seq<Req>>) returns (groups: seq<Group>)
    ensures groups == ToGroups(lists)
  {
    groups := [];
    for i := 0 to |lists|
      invariant groups == ToGroups(lists[..i])
    {
      groups := groups + [Reqs(lists[i])];
    }
    assert lists[..|lists|] == lists;
  }

  /** The groups of an item. */
  method ExpandItem(item: Item<Req>) returns (groups: seq<Group>)
    ensures groups == Expand(item) && |groups| == |Lists(item)|
  {
    match item {
      case Single(q) => groups := [Reqs([q])];
      case Several(qs) => groups := [Reqs(qs)];
      case WholeNode(host, wants) => groups := [Node(host, wants)];
      case Aggregate(lists) => groups := ExpandLists(lists);
    }
  }

  /** Expand a request item by item, noting where each item went. */
  method ExpandRequest(items: seq<Item<Req>>) returns (groups: seq<Group>, places: seq<Place>)
    ensures groups == ExpandAll(items) && |places| == |items|
    ensures forall i | 0 <= i < |items| :: places[i].At? <==> !items[i].Aggregate?
    ensures forall i | 0 <= i < |items| :: places[i].First() == StartOf(items, i) && places[i].Last() == StartOf(items, i + 1)
  {
    groups, places := [], [];
    for n := 0 to |items|
      invariant groups == ExpandAll(items[..n]) && |places| == n
      invariant forall i | 0 <= i < n :: places[i].At? <==> !items[i].Aggregate?
      invariant forall i | 0 <= i < n :: places[i].First() == StartOf(items, i) && places[i].Last() == StartOf(items, i + 1)
    {
      assert items[..n + 1] == items[..n] + [items[n]];
      ExpandAppend(items[..n], items[n]);
      StartOfNext(items, n);
      var start := |groups|;
      var more := ExpandItem(items[n]);
      places := places + [if items[n].Aggregate? then Span(start, start + |more|) else At(start)];
      groups := groups + more;
    }
    assert items[..|items|] == items;
  }

  // ------------------------------------------------------------- regrouping

  /** The lists can stand for the item. */
  predicate Answerable<T>(item: Item<Req>, lists: seq<seq<T>>) {
    |lists| == |Lists(item)| && (item.Single? ==> |lists[0]| == 1)
  }

  /** The name of an answered node: its own, or the host of its first resource. */
  function NodeName(host: Option<string>, xs: seq<Res>): Option<string> {
    if host.Some? || xs == [] then host else Some(xs[0].Key().host)
  }

  function Regroup(item: Item<Req>, lists: seq<seq<Res>>): Item<Res>
    requires Answerable(item, lists)
  {
    match item
    case Single(_) => Single(lists[0][0])
    case Several(_) => Several(lists[0])
    case Aggregate(_) => Aggregate(lists)
    case WholeNode(host, _) => WholeNode(NodeName(host, lists[0]), lists[0])
  }

  /** The lists, taken in turn, can stand for the items. */
  predicate AllAnswerable<T>(items: seq<Item<Req>>, lists: seq<seq<T>>) {
    if items == [] then lists == []
    else
      var w := |Lists(items[0])|;
      w <= |lists| && Answerable(items[0], lists[..w]) && AllAnswerable(items[1..], lists[w..])
  }

  function RegroupAll(items: seq<Item<Req>>, lists: seq<seq<Res>>): seq<Item<Res>>
    requires AllAnswerable(items, lists)
  {
    if items == [] then []
    else
      var w := |Lists(items[0])|;
      [Regroup(items[0], lists[..w])] + RegroupAll(items[1..], lists[w..])
  }

  /** The same kind of item, with as many lists. */
  predicate SameKind(item: Item<Req>, answer: Item<Res>) {
    match item
    case Single(_) => answer.Single?
    case Several(_) => answer.Several?
    case Aggregate(lists) => answer.Aggregate? && |answer.lists| == |lists|
    case WholeNode(host, _) => answer.WholeNode? && (host.Some? ==> answer.host == host)
  }

  lemma RegroupOne(item: Item<Req>, lists: seq<seq<Res>>)
    requires Answerable(item, lists)
    ensures Lists(Regroup(item, lists)) == lists && SameKind(item, Regroup(item, lists))
  {
    if !item.Aggregate? { assert lists == [lists[0]]; }
    if item.Single? { assert lists[0] == [lists[0][0]]; }
  }

  ghost predicate SameKinds(items: seq<Item<Req>>, answers: seq<Item<Res>>) {
    |answers| == |items| && forall i | 0 <= i < |items| :: SameKind(items[i], answers[i])
  }

  lemma SameKindsCons(items: seq<Item<Req>>, answer: Item<Res>, answers: seq<Item<Res>>)
    requires items != [] && SameKind(items[0], answer) && SameKinds(items[1..], answers)
    ensures SameKinds(items, [answer] + answers)
  {
    forall i | 0 < i < |items| ensures SameKind(items[i], ([answer] + answers)[i]) {
      assert items[i] == items[1..][i - 1];
    }
  }

  lemma ListsCons(answer: Item<Res>, answers: seq<Item<Res>>)
    ensures AllLists([answer] + answers) == Lists(answer) + AllLists(answers)
  {
    assert ([answer] + answers)[1..] == answers;
  }

  /** Regrouping inverts expansion: the answer has an item of the same kind for each
      item of the request, and expanding it gives the lists back. */
  lemma {:induction false} RegroupInvertsExpand(items: seq<Item<Req>>, lists: seq<seq<Res>>)
    requires AllAnswerable(items, lists)
    ensures AllLists(RegroupAll(items, lists)) == lists
    ensures SameKinds(items, RegroupAll(items, lists))
    decreases |items|
  {
    if items != [] {
      var w := |Lists(items[0])|;
      var now, later := lists[..w], lists[w..];
      RegroupInvertsExpand(items[1..], later);
      RegroupOne(items[0], now);
      var answer, answers := Regroup(items[0], now), RegroupAll(items[1..], later);
      SameKindsCons(items, answer, answers);
      ListsCons(answer, answers);
      assert lists == now + later;
    }
  }

  /** Lists that have one list a group, as long as what was asked, can be regrouped. */
  lemma {:induction false} SameLengthsAnswer<T>(items: seq<Item<Req>>, lists: seq<seq<T>>)
    requires SameLengths(ExpandAll(items), lists)
    ensures AllAnswerable(items, lists)
    decreases |items|
  {
    if items != [] {
      var w := |Lists(items[0])|;
      SplitLengths(Expand(items[0]), ExpandAll(items[1..]), lists);
      SameLengthsAnswer(items[1..], lists[w..]);
      if items[0].Single? { assert Expand(items[0])[0] == Reqs([items[0].x]); }
    }
  }

  ghost predicate SameLengths<T>(groups: seq<Group>, lists: seq<seq<T>>) {
    |lists| == |groups| && forall i | 0 <= i < |lists| && groups[i].Reqs? :: |lists[i]| == |groups[i].reqs|
  }

  lemma SplitLengths<T>(a: seq<Group>, b: seq<Group>, lists: seq<seq<T>>)
    requires SameLengths(a + b, lists)
    ensures SameLengths(a, lists[..|a|]) && SameLengths(b, lists[|a|..])
  {
    assert forall i | 0 <= i < |b| :: (a + b)[|a| + i] == b[i];
  }
}
