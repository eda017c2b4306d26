/** Whole node lists: when the names of an expansion are all different, and when the two
    functions that expand a list agree on it. */
module NodeLists {
  import opened Resources
  import opened Decimal
  import opened NodeList

  // ------------------------------------------------------------ no duplicates

  /** The numbers a range stands for. */
  predicate Denotes(r: Range, n: nat) {
    match r
    case One(text) => Numeral(text) && n == Read(text)
    case FromTo(low, high) => Numeral(low) && Numeral(high) && Read(low) <= n <= Read(high)
    case Many(_, _) => false
  }

  /** How a range writes a number: padded if its bounds have one width. */
  function Written(r: Range, n: nat): string { if r.FromTo? then Pad(Dec(n), Width(r)) else Dec(n) }

  ghost predicate NoTwins(xs: seq<string>) { forall i, j | 0 <= i < j < |xs| :: xs[i] != xs[j] }

  /** Where two ranges share a number they write it differently. */
  ghost predicate Apart(r: Range, q: Range) {
    forall n: nat | Denotes(r, n) && Denotes(q, n) :: Written(r, n) != Written(q, n)
  }

  ghost predicate WrittenApart(rs: seq<Range>) { forall i, j | 0 <= i < j < |rs| :: Apart(rs[i], rs[j]) }

  ghost predicate ShareNothing(rs: seq<Range>) {
    forall i, j, n: nat | 0 <= i < j < |rs| :: !(Denotes(rs[i], n) && Denotes(rs[j], n))
  }

  lemma WrittenReads(r: Range, n: nat)
    ensures Read(Written(r, n)) == n
  {
    ReadDec(n);
    if r.FromTo? { ReadPad(Dec(n), Width(r)); }
  }

  /** x is the name of a number of the range. */
  ghost predicate Names(prefix: string, r: Range, x: string) { exists n: nat :: Denotes(r, n) && x == prefix + Written(r, n) }

  /** The numbers of a range, in turn. */
  function NumberAt(r: Range, i: nat): nat
    requires WellFormed(r)
  {
    match r case One(text) => Read(text) case FromTo(low, _) => Read(low) + i case Many(low, _) => Read(low) + i
  }

  lemma NodesAt(r: Range, i: nat)
    requires NodesOf(r).Some? && i < |NodesOf(r).value|
    ensures WellFormed(r) && Denotes(r, NumberAt(r, i)) && NodesOf(r).value[i] == Written(r, NumberAt(r, i))
  {
  }

  lemma DenotedAt(r: Range, n: nat) returns (i: nat)
    requires NodesOf(r).Some? && Denotes(r, n)
    ensures i < |NodesOf(r).value| && WellFormed(r) && NumberAt(r, i) == n
  {
    i := if r.One? then 0 else n - Read(r.low);
  }

  lemma SameName(prefix: string, r: Range, n: nat, q: Range, m: nat)
    requires prefix + Written(r, n) == prefix + Written(q, m)
    ensures n == m && Written(r, n) == Written(q, m)
  {
    assert (prefix + Written(r, n))[|prefix|..] == Written(r, n);
    assert (prefix + Written(q, m))[|prefix|..] == Written(q, m);
    WrittenReads(r, n);
    WrittenReads(q, m);
  }

  /** The expansion of one range names its numbers, each once. */
  lemma RangeNames(prefix: string, r: Range)
    requires NodesOf(r).Some?
    ensures forall x :: x in Prefixed(prefix, NodesOf(r).value) <==> Names(prefix, r, x)
    ensures NoTwins(Prefixed(prefix, NodesOf(r).value))
  {
    var suffixes, xs := NodesOf(r).value, Prefixed(prefix, NodesOf(r).value);
    forall i | 0 <= i < |xs|
      ensures WellFormed(r) && Denotes(r, NumberAt(r, i)) && xs[i] == prefix + Written(r, NumberAt(r, i))
    {
      NodesAt(r, i);
    }
    forall x | Names(prefix, r, x)
      ensures x in xs
    {
      var n: nat :| Denotes(r, n) && x == prefix + Written(r, n);
      var i := DenotedAt(r, n);
      assert xs[i] == x;
    }
    forall i, j | 0 <= i < j < |xs|
      ensures xs[i] != xs[j]
    {
      if xs[i] == xs[j] { SameName(prefix, r, NumberAt(r, i), r, NumberAt(r, j)); }
    }
  }

  lemma JoinTwins(a: seq<string>, b: seq<string>)
    ensures NoTwins(a + b) <==> NoTwins(a) && NoTwins(b) && forall x :: !(x in a && x in b)
  {
    var ab := a + b;
    if x :| x in a && x in b {
      var i :| 0 <= i < |a| && a[i] == x;
      var j :| 0 <= j < |b| && b[j] == x;
      assert ab[i] == ab[|a| + j];
    } else {
      if NoTwins(ab) {
        forall i, j | 0 <= i < j < |a| ensures a[i] != a[j] { assert ab[i] == a[i] && ab[j] == a[j]; }
        forall i, j | 0 <= i < j < |b| ensures b[i] != b[j] { assert ab[|a| + i] == b[i] && ab[|a| + j] == b[j]; }
      }
      forall i, j | 0 <= i < |a| <= j < |ab|
        ensures ab[i] != ab[j]
      {
        assert a[i] in a && b[j - |a|] in b;
      }
    }
  }

  /** The last range shares no name with those before. */
  ghost predicate LastApart(rs: seq<Range>)
    requires rs != []
  {
    forall i | 0 <= i < |rs| - 1 :: Apart(rs[i], rs[|rs| - 1])
  }

  lemma ApartSplits(rs: seq<Range>)
    requires rs != []
    ensures WrittenApart(rs) <==> WrittenApart(rs[..|rs| - 1]) && LastApart(rs)
  {
    var n := |rs| - 1;
    assert forall i | 0 <= i < n :: rs[..n][i] == rs[i];
  }

  /** x is the name of a number of some range of the list. */
  ghost predicate ListNames(prefix: string, rs: seq<Range>, x: string) { exists i | 0 <= i < |rs| :: Names(prefix, rs[i], x) }

  lemma ListNamesSplits(prefix: string, rs: seq<Range>, x: string)
    requires rs != []
    ensures ListNames(prefix, rs, x) <==> ListNames(prefix, rs[..|rs| - 1], x) || Names(prefix, rs[|rs| - 1], x)
  {
    var n := |rs| - 1;
    if ListNames(prefix, rs[..n], x) {
      var i :| 0 <= i < n && Names(prefix, rs[..n][i], x);
      assert Names(prefix, rs[i], x);
    }
    if i :| 0 <= i < |rs| && Names(prefix, rs[i], x) {
      if i < n { assert rs[..n][i] == rs[i]; }
    }
  }

  ghost predicate NoCommonName(prefix: string, rest: seq<Range>, last: Range) {
    forall x :: ListNames(prefix, rest, x) ==> !Names(prefix, last, x)
  }

  /** Names in common are numbers in common, written alike. */
  lemma LastNames(prefix: string, rs: seq<Range>)
    requires rs != []
    ensures LastApart(rs) <==> NoCommonName(prefix, rs[..|rs| - 1], rs[|rs| - 1])
  {
    var n, last := |rs| - 1, rs[|rs| - 1];
    if !LastApart(rs) {
      var i :| 0 <= i < n && !Apart(rs[i], last);
      var m: nat :| Denotes(rs[i], m) && Denotes(last, m) && Written(rs[i], m) == Written(last, m);
      var x := prefix + Written(last, m);
      assert Names(prefix, rs[..n][i], x) && Names(prefix, last, x);
    }
    if x :| ListNames(prefix, rs[..n], x) && Names(prefix, last, x) {
      var i :| 0 <= i < n && Names(prefix, rs[..n][i], x);
      var m: nat :| Denotes(rs[i], m) && x == prefix + Written(rs[i], m);
      var k: nat :| Denotes(last, k) && x == prefix + Written(last, k);
      SameName(prefix, rs[i], m, last, k);
      assert !Apart(rs[i], last);
    }
  }

  /** What an expansion holds, and when it holds nothing twice. */
  lemma {:induction false} ExpansionNames(prefix: string, rs: seq<Range>)
    requires AllNodes(prefix, rs).Some?
    ensures forall x :: x in AllNodes(prefix, rs).value <==> ListNames(prefix, rs, x)
    ensures NoTwins(AllNodes(prefix, rs).value) <==> WrittenApart(rs)
  {
    if rs != [] {
      var n := |rs| - 1;
      var before, last := AllNodes(prefix, rs[..n]).value, Prefixed(prefix, NodesOf(rs[n]).value);
      ExpansionNames(prefix, rs[..n]);
      RangeNames(prefix, rs[n]);
      assert AllNodes(prefix, rs).value == before + last;
      forall x ensures x in before + last <==> ListNames(prefix, rs, x) { ListNamesSplits(prefix, rs, x); }
      JoinTwins(before, last);
      LastNames(prefix, rs);
      ApartSplits(rs);
    }
  }

  /** The names of an expansion are all different exactly if no two of its ranges, single
      numbers included, write a number they share alike; so they are if the ranges share
      no number. */
  lemma NoNameTwice(prefix: string, rs: seq<Range>)
    requires AllNodes(prefix, rs).Some?
    ensures NoTwins(AllNodes(prefix, rs).value) <==> WrittenApart(rs)
    ensures ShareNothing(rs) ==> NoTwins(AllNodes(prefix, rs).value)
  {
    ExpansionNames(prefix, rs);
  }

  // ------------------------------------------------------------------ order

  function Both(a: Option<seq<string>>, b: Option<seq<string>>): Option<seq<string>> {
    if a.Some? && b.Some? then Some(a.value + b.value) else None
  }

  lemma BothTwice(a: Option<seq<string>>, b: Option<seq<string>>, c: Option<seq<string>>)
    ensures Both(Both(a, b), c) == Both(a, Both(b, c))
  {
    if a.Some? && b.Some? && c.Some? { assert (a.value + b.value) + c.value == a.value + (b.value + c.value); }
  }

  lemma BothNothing(a: Option<seq<string>>)
    ensures Both(a, Some([])) == a
  {
    if a.Some? { assert a.value + [] == a.value; }
  }

  /** Lists are expanded part by part, in order. */
  lemma {:induction false} PartsInOrder(prefix: string, rs: seq<Range>, qs: seq<Range>)
    ensures AllNodes(prefix, rs + qs) == Both(AllNodes(prefix, rs), AllNodes(prefix, qs))
    ensures AllHosts(prefix, rs + qs) == Both(AllHosts(prefix, rs), AllHosts(prefix, qs))
    decreases |qs|
  {
    if qs == [] {
      assert rs + qs == rs;
      BothNothing(AllNodes(prefix, rs));
      BothNothing(AllHosts(prefix, rs));
    } else {
      var n := |qs| - 1;
      var all := rs + qs;
      assert all[..|all| - 1] == rs + qs[..n] && all[|all| - 1] == qs[n];
      PartsInOrder(prefix, rs, qs[..n]);
      LastPart(prefix, all);
      LastPart(prefix, qs);
      BothTwice(AllNodes(prefix, rs), AllNodes(prefix, qs[..n]), NamedPart(prefix, NodesOf(qs[n])));
      BothTwice(AllHosts(prefix, rs), AllHosts(prefix, qs[..n]), NamedPart(prefix, HostsOf(qs[n])));
    }
  }

  function NamedPart(prefix: string, part: Option<seq<string>>): Option<seq<string>> {
    if part.Some? then Some(Prefixed(prefix, part.value)) else None
  }

  lemma LastPart(prefix: string, qs: seq<Range>)
    requires qs != []
    ensures var n := |qs| - 1;
            && AllNodes(prefix, qs) == Both(AllNodes(prefix, qs[..n]), NamedPart(prefix, NodesOf(qs[n])))
            && AllHosts(prefix, qs) == Both(AllHosts(prefix, qs[..n]), NamedPart(prefix, HostsOf(qs[n])))
  {
  }

  /** The names of one part are its numbers upwards, each after the prefix. */
  lemma OnePartInOrder(prefix: string, r: Range)
    requires NodesOf(r).Some?
    ensures AllNodes(prefix, [r]) == Some(Prefixed(prefix, NodesOf(r).value))
    ensures forall i | 0 <= i < |NodesOf(r).value| :: WellFormed(r) && AllNodes(prefix, [r]).value[i] == prefix + Written(r, NumberAt(r, i))
    ensures WellFormed(r) && !r.One? ==> forall i, j | 0 <= i < j :: NumberAt(r, i) < NumberAt(r, j)
  {
    assert [r][..0] == [] && [] + Prefixed(prefix, NodesOf(r).value) == Prefixed(prefix, NodesOf(r).value);
    forall i | 0 <= i < |NodesOf(r).value|
      ensures WellFormed(r) && NodesOf(r).value[i] == Written(r, NumberAt(r, i))
    {
      NodesAt(r, i);
    }
  }

  // ------------------------------------------------------------- agreement

  /** What the padding function refuses. */
  predicate NodesRefuse(r: Range) { !r.Many? && !(WellFormed(r) && (r.FromTo? ==> Upward(r))) }

  /** What the other one refuses. */
  predicate HostsRefuse(r: Range) { !r.One? && !WellFormed(r) }

  lemma {:induction false} RefusedExactly(prefix: string, rs: seq<Range>)
    ensures AllNodes(prefix, rs).None? <==> exists i | 0 <= i < |rs| :: NodesRefuse(rs[i])
    ensures AllHosts(prefix, rs).None? <==> exists i | 0 <= i < |rs| :: HostsRefuse(rs[i])
  {
    if rs != [] {
      var n := |rs| - 1;
      RefusedExactly(prefix, rs[..n]);
      assert forall i | 0 <= i < n :: rs[..n][i] == rs[i];
    }
  }

  lemma Stripped(prefix: string, xs: seq<string>, ys: seq<string>)
    requires Prefixed(prefix, xs) == Prefixed(prefix, ys)
    ensures xs == ys
  {
    var a, b := Prefixed(prefix, xs), Prefixed(prefix, ys);
    assert |a| == |xs| && |b| == |ys|;
    forall i | 0 <= i < |xs|
      ensures xs[i] == ys[i]
    {
      assert a[i] == prefix + xs[i] && b[i] == prefix + ys[i];
      assert (prefix + xs[i])[|prefix|..] == xs[i] && (prefix + ys[i])[|prefix|..] == ys[i];
    }
  }

  /** The padding function never gives more names. */
  lemma FewerNodes(r: Range)
    requires NodesOf(r).Some? && HostsOf(r).Some?
    ensures |NodesOf(r).value| <= |HostsOf(r).value|
  {
  }

  lemma EqualParts(a: seq<string>, b: seq<string>, c: seq<string>, d: seq<string>)
    requires |a| <= |c| && |b| <= |d| && a + b == c + d
    ensures a == c && b == d
  {
    assert |a| == |c|;
    assert a == (a + b)[..|a|] && c == (c + d)[..|c|];
    assert b == (a + b)[|a|..] && d == (c + d)[|c|..];
  }

  lemma {:induction false} AgreedAreEqual(prefix: string, rs: seq<Range>)
    requires AllNodes(prefix, rs).Some? && AllHosts(prefix, rs).Some?
    ensures |AllNodes(prefix, rs).value| <= |AllHosts(prefix, rs).value|
    ensures AllNodes(prefix, rs) == AllHosts(prefix, rs) ==> forall i | 0 <= i < |rs| :: Plain(rs[i])
  {
    if rs != [] {
      var n := |rs| - 1;
      var a, c := AllNodes(prefix, rs[..n]).value, AllHosts(prefix, rs[..n]).value;
      var b, d := NodesOf(rs[n]).value, HostsOf(rs[n]).value;
      AgreedAreEqual(prefix, rs[..n]);
      FewerNodes(rs[n]);
      if AllNodes(prefix, rs) == AllHosts(prefix, rs) {
        EqualParts(a, Prefixed(prefix, b), c, Prefixed(prefix, d));
        Stripped(prefix, b, d);
        AgreeExactly(rs[n]);
        forall i | 0 <= i < |rs|
          ensures Plain(rs[i])
        {
          if i < n { assert rs[..n][i] == rs[i]; }
        }
      }
    }
  }

  /** The two functions agree on a list exactly if both refuse it, each for some range,
      or all its ranges are plain. */
  lemma ListsAgreeExactly(prefix: string, rs: seq<Range>)
    ensures AllNodes(prefix, rs) == AllHosts(prefix, rs)
       <==> (forall i | 0 <= i < |rs| :: Plain(rs[i]))
            || ((exists i | 0 <= i < |rs| :: NodesRefuse(rs[i])) && exists i | 0 <= i < |rs| :: HostsRefuse(rs[i]))
  {
    RefusedExactly(prefix, rs);
    if forall i | 0 <= i < |rs| :: Plain(rs[i]) {
      ExpandersAgree(prefix, rs);
    } else if AllNodes(prefix, rs).Some? && AllHosts(prefix, rs).Some? {
      AgreedAreEqual(prefix, rs);
    }
  }
}
