/** Node lists such as viz[1-3,7]: the two functions that expand the ranges between the
    brackets, and exactly when they agree. */
module NodeList {
  import opened Resources
  import opened Decimal

  /** What stands between two commas, split at its dashes; of three parts or more the
      first two. Nothing at all is one empty part. */
  datatype Range = One(text: string) | FromTo(low: string, high: string) | Many(low: string, high: string)

  predicate WellFormed(r: Range) { if r.One? then Numeral(r.text) else Numeral(r.low) && Numeral(r.high) }

  predicate Upward(r: Range)
    requires !r.One? && WellFormed(r)
  {
    Read(r.low) <= Read(r.high)
  }

  // ------------------------------------------------------------ the padding one

  /** The suffixes of a range: numbers are written anew, padded if both bounds have one
      width. */
  function Width(r: Range): nat
    requires r.FromTo?
  {
    if |r.low| == |r.high| then |r.high| else 0
  }

  function Suffix(r: Range, i: nat): string
    requires r.FromTo? && WellFormed(r)
  {
    Pad(Dec(Read(r.low) + i), Width(r))
  }

  /** None where the range is refused: for what is no number, and for a range that runs
      downwards. A range of more than two parts is passed over in silence. */
  function NodesOf(r: Range): Option<seq<string>> {
    if r.Many? then Some([])
    else if !WellFormed(r) then None
    else if r.One? then Some([Dec(Read(r.text))])
    else if !Upward(r) then None
    else Some(seq(Read(r.high) - Read(r.low) + 1, i requires 0 <= i => Suffix(r, i)))
  }

  function AllNodes(prefix: string, rs: seq<Range>): Option<seq<string>> {
    if rs == [] then Some([])
    else
      var n := |rs| - 1;
      match (AllNodes(prefix, rs[..n]), NodesOf(rs[n]))
      case (Some(before), Some(last)) => Some(before + Prefixed(prefix, last))
      case _ => None
  }

  function Prefixed(prefix: string, xs: seq<string>): seq<string> { seq(|xs|, i requires 0 <= i < |xs| => prefix + xs[i]) }

  lemma {:induction false} BadRangeSpoils(prefix: string, rs: seq<Range>, n: nat)
    requires n <= |rs| && AllNodes(prefix, rs[..n]).None?
    ensures AllNodes(prefix, rs).None?
    decreases |rs|
  {
    if n < |rs| {
      assert rs[..|rs| - 1][..n] == rs[..n];
      BadRangeSpoils(prefix, rs[..|rs| - 1], n);
    } else {
      assert rs[..n] == rs;
    }
  }

  method PadTo(s: string, width: nat) returns (p: string)
    requires Numeral(s)
    ensures p == Pad(s, width)
  {
    p := s;
    while |p| < width
      invariant Numeral(p) && Pad(p, width) == Pad(s, width)
      decreases width - |p|
    {
      p := "0" + p;
    }
  }

  /** Names for the numbers of a range, padded if both bounds have one width. */
  method NodeRange(prefix: string, r: Range) returns (names: seq<string>)
    requires r.FromTo? && WellFormed(r) && Upward(r)
    ensures names == Prefixed(prefix, NodesOf(r).value)
  {
    names := [];
    for i := 0 to Read(r.high) - Read(r.low) + 1
      invariant |names| == i && forall j | 0 <= j < i :: names[j] == prefix + Suffix(r, j)
    {
      var suffix := Dec(Read(r.low) + i);
      if |r.low| == |r.high| { suffix := PadTo(suffix, |r.high|); }
      names := names + [prefix + suffix];
    }
  }

  /** Expand a node list, padding numbers; None if a range is refused. */
  method ExpandNodes(prefix: string, rs: seq<Range>) returns (names: Option<seq<string>>)
    ensures names == AllNodes(prefix, rs)
  {
    var out: seq<string> := [];
    for k := 0 to |rs|
      invariant AllNodes(prefix, rs[..k]) == Some(out)
    {
      assert rs[..k + 1][..k] == rs[..k];
      match rs[k] {
        case Many(_, _) =>
          assert out == out + Prefixed(prefix, []);
        case One(text) =>
          if !Numeral(text) {
            BadRangeSpoils(prefix, rs, k + 1);
            return None;
          }
          assert Prefixed(prefix, [Dec(Read(text))]) == [prefix + Dec(Read(text))];
          out := out + [prefix + Dec(Read(text))];
        case FromTo(low, high) =>
          if !Numeral(low) || !Numeral(high) || Read(high) < Read(low) {
            BadRangeSpoils(prefix, rs, k + 1);
            return None;
          }
          var range := NodeRange(prefix, rs[k]);
          out := out + range;
      }
    }
    assert rs[..|rs|] == rs;
    names := Some(out);
  }

  // ------------------------------------------------------------- the plain one

  /** The suffixes of the other function: single numbers as they stand, and the numbers
      of a range unpadded; none if it runs downwards. */
  function Unpadded(low: nat, i: nat): string { Dec(low + i) }

  /** None where a bound is no number. Parts after the second are not looked at. */
  function HostsOf(r: Range): Option<seq<string>> {
    if r.One? then Some([r.text])
    else if !WellFormed(r) then None
    else if !Upward(r) then Some([])
    else Some(seq(Read(r.high) - Read(r.low) + 1, i requires 0 <= i => Unpadded(Read(r.low), i)))
  }

  function AllHosts(prefix: string, rs: seq<Range>): Option<seq<string>> {
    if rs == [] then Some([])
    else
      var n := |rs| - 1;
      match (AllHosts(prefix, rs[..n]), HostsOf(rs[n]))
      case (Some(before), Some(last)) => Some(before + Prefixed(prefix, last))
      case _ => None
  }

  lemma {:induction false} BadBoundSpoils(prefix: string, rs: seq<Range>, n: nat)
    requires n <= |rs| && AllHosts(prefix, rs[..n]).None?
    ensures AllHosts(prefix, rs).None?
    decreases |rs|
  {
    if n < |rs| {
      assert rs[..|rs| - 1][..n] == rs[..n];
      BadBoundSpoils(prefix, rs[..|rs| - 1], n);
    } else {
      assert rs[..n] == rs;
    }
  }

  /** Names for the numbers from low to high. */
  method HostRange(prefix: string, low: nat, high: nat) returns (names: seq<string>)
    ensures |names| == (if low <= high then high - low + 1 else 0) && forall j | 0 <= j < |names| :: names[j] == prefix + Unpadded(low, j)
  {
    names := [];
    var i := low;
    while i <= high
      invariant low <= i && (low <= high ==> i <= high + 1) && (low > high ==> i == low)
      invariant |names| == i - low && forall j | 0 <= j < |names| :: names[j] == prefix + Unpadded(low, j)
    {
      names := names + [prefix + Dec(i)];
      i := i + 1;
    }
  }

  /** Expand a node list without padding; None if a bound is no number. */
  method ExpandHosts(prefix: string, rs: seq<Range>) returns (names: Option<seq<string>>)
    ensures names == AllHosts(prefix, rs)
  {
    var out: seq<string> := [];
    for k := 0 to |rs|
      invariant AllHosts(prefix, rs[..k]) == Some(out)
    {
      assert rs[..k + 1][..k] == rs[..k];
      if rs[k].One? {
        assert Prefixed(prefix, [rs[k].text]) == [prefix + rs[k].text];
        out := out + [prefix + rs[k].text];
      } else {
        var low, high := rs[k].low, rs[k].high;
        if !Numeral(low) || !Numeral(high) {
          BadBoundSpoils(prefix, rs, k + 1);
          return None;
        }
        var range := HostRange(prefix, Read(low), Read(high));
        assert range == Prefixed(prefix, HostsOf(rs[k]).value);
        out := out + range;
      }
    }
    assert rs[..|rs|] == rs;
    names := Some(out);
  }

  // ------------------------------------------------------------- the theorems

  /** Bounds of one width give suffixes of that width that read as consecutive numbers. */
  lemma EqualWidths(r: Range, i: nat)
    requires r.FromTo? && WellFormed(r) && |r.low| == |r.high| && Upward(r) && i <= Read(r.high) - Read(r.low)
    ensures |Suffix(r, i)| == |r.high| && Read(Suffix(r, i)) == Read(r.low) + i
  {
    SuffixReads(r, i);
    DecGrows(Read(r.low) + i, Read(r.high));
    DecIsShortest(r.high);
  }

  lemma SuffixReads(r: Range, i: nat)
    requires r.FromTo? && WellFormed(r)
    ensures Read(Suffix(r, i)) == Read(r.low) + i
  {
    ReadDec(Read(r.low) + i);
    ReadPad(Dec(Read(r.low) + i), Width(r));
  }

  /** Different numbers of ranges give different names. */
  lemma DifferentNumbersDifferentNames(prefix: string, r: Range, i: nat, q: Range, j: nat)
    requires r.FromTo? && WellFormed(r) && q.FromTo? && WellFormed(q) && Read(r.low) + i != Read(q.low) + j
    ensures prefix + Suffix(r, i) != prefix + Suffix(q, j)
  {
    SuffixReads(r, i);
    SuffixReads(q, j);
    assert (prefix + Suffix(r, i))[|prefix|..] == Suffix(r, i);
    assert (prefix + Suffix(q, j))[|prefix|..] == Suffix(q, j);
  }

  /** A range both functions treat alike: a number without leading zeros, two bounds that
      are not both numbers, an upward range that has no leading zero where its bounds have
      one width, or one of more parts that runs downwards. */
  predicate Plain(r: Range) {
    match r
    case One(text) => Canonical(text)
    case FromTo(low, _) => WellFormed(r) ==> Upward(r) && (|r.low| == |r.high| ==> Canonical(r.low))
    case Many(_, _) => WellFormed(r) && !Upward(r)
  }

  lemma AgreeExactly(r: Range)
    ensures NodesOf(r) == HostsOf(r) <==> Plain(r)
  {
    if r.One? && WellFormed(r) {
      DecRead(r.text);
      assert NodesOf(r).value[0] == Dec(Read(r.text)) && HostsOf(r).value[0] == r.text;
    } else if r.FromTo? && WellFormed(r) && Upward(r) {
      if |r.low| == |r.high| {
        DecRead(r.low);
        FirstDecides(r);
      } else {
        assert forall i: nat :: Suffix(r, i) == Unpadded(Read(r.low), i);
        assert NodesOf(r).value == HostsOf(r).value;
      }
    } else if r.Many? && WellFormed(r) && Upward(r) {
      assert |HostsOf(r).value| > 0;
    }
  }

  /** Padding is needed for some number of a range exactly if it is for the first. */
  lemma FirstDecides(r: Range)
    requires r.FromTo? && WellFormed(r) && |r.low| == |r.high| && Upward(r)
    ensures NodesOf(r) == HostsOf(r) <==> Dec(Read(r.low)) == r.low
  {
    if Dec(Read(r.low)) == r.low {
      NoPaddingNeeded(r);
    } else {
      FirstIsPadded(r);
      assert NodesOf(r).value[0] == Suffix(r, 0) && HostsOf(r).value[0] == Unpadded(Read(r.low), 0);
    }
  }

  lemma NoPaddingNeeded(r: Range)
    requires r.FromTo? && WellFormed(r) && |r.low| == |r.high| && Upward(r) && Dec(Read(r.low)) == r.low
    ensures NodesOf(r) == HostsOf(r)
  {
    forall i: nat
      ensures Suffix(r, i) == Unpadded(Read(r.low), i)
    {
      SuffixUnpadded(r, i);
    }
    assert NodesOf(r).value == HostsOf(r).value;
  }

  lemma SuffixUnpadded(r: Range, i: nat)
    requires r.FromTo? && WellFormed(r) && |r.low| == |r.high| && |Dec(Read(r.low))| == |r.low|
    ensures Suffix(r, i) == Unpadded(Read(r.low), i)
  {
    var n := Read(r.low);
    DecGrows(n, n + i);
    PadNothing(Dec(n + i), |r.high|);
  }

  lemma PadNothing(s: string, width: nat)
    requires Numeral(s) && width <= |s|
    ensures Pad(s, width) == s
  {
  }

  lemma FirstIsPadded(r: Range)
    requires r.FromTo? && WellFormed(r) && |r.low| == |r.high| && Upward(r) && Dec(Read(r.low)) != r.low
    ensures Suffix(r, 0) != Unpadded(Read(r.low), 0)
  {
    EqualWidths(r, 0);
    DecIsShortest(r.low);
    if |Dec(Read(r.low))| == |r.low| { SameLengthSameText(r.low); }
  }

  /** A numeral as short as can be has no leading zero. */
  lemma {:induction false} SameLengthSameText(s: string)
    requires Numeral(s) && |Dec(Read(s))| == |s|
    ensures Dec(Read(s)) == s
  {
    var n := |s| - 1;
    if n == 0 {
      assert s[..0] == "";
      DecReadCanonical(s);
    } else {
      var front := s[..n];
      assert Read(s) == 10 * Read(front) + ValueOf(s[n]);
      assert Read(s) / 10 == Read(front) && Read(s) % 10 == ValueOf(s[n]);
      assert Read(s) >= 10;
      SameLengthSameText(front);
      assert s == front + [s[n]] && DigitOf(ValueOf(s[n])) == s[n];
    }
  }

  /** The two functions agree on a list of plain ranges. */
  lemma {:induction false} ExpandersAgree(prefix: string, rs: seq<Range>)
    requires forall i | 0 <= i < |rs| :: Plain(rs[i])
    ensures AllNodes(prefix, rs) == AllHosts(prefix, rs)
  {
    if rs != [] {
      var n := |rs| - 1;
      ExpandersAgree(prefix, rs[..n]);
      AgreeExactly(rs[n]);
    }
  }
}
