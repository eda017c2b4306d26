/** The positions of screens on the X server that drives them. Screens are positioned
    within their group, but blocks are dealt out to servers by number. */
module Positions {
  import opened Resources
  import opened Spans
  import opened Layout
  import opened Tiled
  import opened Display

  /** The screens of each server are at different positions. */
  ghost predicate ScreensApart(p: Params, g: Groups)
    requires Divides(p, g) && g.cols * g.rows > 0
  {
    forall r, c, s, d | 0 <= r < p.rows && 0 <= c < p.cols && 0 <= s < p.rows && 0 <= d < p.cols && (r != s || c != d) ::
      ServerOf(p, g, r, c) == ServerOf(p, g, s, d) ==> PositionAt(p, g, r, c) != PositionAt(p, g, s, d)
  }

  lemma StartsDiffer(es: seq<nat>, i: nat, j: nat)
    requires i < |es| && j < |es| && i != j && (forall k | 0 <= k < |es| :: es[k] > 0)
    ensures Start(es, i) != Start(es, j)
  {
    if i < j { StartGrows(es, i, j); } else { StartGrows(es, j, i); }
  }

  lemma AllPositive(p: Params)
    requires Valid(p)
    ensures forall c | 0 <= c < p.cols :: ColWidths(p)[c] > 0
    ensures forall r | 0 <= r < p.rows :: RowHeights(p)[r] > 0
  {
    forall c | 0 <= c < p.cols ensures ColWidths(p)[c] > 0 { WallIsPositive(p, 0, c); }
    forall r | 0 <= r < p.rows ensures RowHeights(p)[r] > 0 { WallIsPositive(p, r, 0); }
  }

  lemma ColumnsDiffer(p: Params, c: nat, d: nat)
    requires Valid(p) && c < p.cols && d < p.cols && c != d
    ensures Start(ColWidths(p), c) != Start(ColWidths(p), d)
  {
    AllPositive(p);
    StartsDiffer(ColWidths(p), c, d);
  }

  lemma RowsDiffer(p: Params, r: nat, s: nat)
    requires Valid(p) && r < p.rows && s < p.rows && r != s
    ensures Start(RowHeights(p), r) != Start(RowHeights(p), s)
  {
    AllPositive(p);
    StartsDiffer(RowHeights(p), r, s);
  }

  /** In one group, different blocks have different offsets. */
  lemma OffsetsDiffer(p: Params, x: nat, y: nat, r: nat, c: nat, s: nat, d: nat)
    requires Valid(p) && x + c < p.cols && y + r < p.rows && x + d < p.cols && y + s < p.rows && (r != s || c != d)
    ensures Offset(p, x, y, r, c) != Offset(p, x, y, s, d)
  {
    if c != d { ColumnsDiffer(p, x + c, x + d); } else { RowsDiffer(p, y + r, y + s); }
  }

  /** A number is where its group starts and how far it is in. */
  lemma PartsOf(n: nat, k: nat) returns (start: nat, part: nat)
    requires k > 0
    ensures start == n / k * k && part == n % k && n == start + part
  {
    start, part := n / k * k, n % k;
  }

  lemma GroupPositionsDiffer(p: Params, g: Groups, r: nat, c: nat, s: nat, d: nat)
    requires Valid(p) && Divides(p, g) && r < p.rows && c < p.cols && s < p.rows && d < p.cols && (r != s || c != d)
    requires SameGroup(g, r, c, s, d)
    ensures PositionAt(p, g, r, c) != PositionAt(p, g, s, d)
  {
    var y, i := PartsOf(r, g.rows);
    var y', k := PartsOf(s, g.rows);
    var x, j := PartsOf(c, g.cols);
    var x', l := PartsOf(d, g.cols);
    OffsetsDiffer(p, x, y, i, j, k, l);
  }

  lemma FirstServer(p: Params, g: Groups, c: nat)
    requires g.cols * g.rows > c
    ensures ServerOf(p, g, 0, c) == 0
  {
    DivUnique(0, g.cols * g.rows, c);
  }

  /** The first block of a group in the first row is at the group's origin. */
  lemma FirstOfGroup(p: Params, g: Groups, C: nat)
    requires Divides(p, g) && C * g.cols < p.cols && 0 < p.rows
    ensures PositionAt(p, g, 0, C * g.cols) == (0, 0)
  {
    DivUnique(0, g.rows, 0);
    DivUnique(C, g.cols, 0);
  }

  /** In the first row, the first blocks of the first two groups are driven by one
      server and both at its origin. */
  lemma OriginTwice(p: Params, g: Groups)
    requires Valid(p) && Divides(p, g) && g.rows > 1 && g.cols < p.cols
    ensures g.cols * g.rows > 0
    ensures ServerOf(p, g, 0, 0) == 0 == ServerOf(p, g, 0, g.cols)
    ensures PositionAt(p, g, 0, 0) == (0, 0) == PositionAt(p, g, 0, g.cols)
  {
    assert g.cols * g.rows >= 2 * g.cols by { MulLe(2, g.rows, g.cols); }
    FirstServer(p, g, 0);
    FirstServer(p, g, g.cols);
    FirstOfGroup(p, g, 0);
    FirstOfGroup(p, g, 1);
  }

  /** The screens of each server are at different positions exactly when groups are one
      row high or as wide as the wall. */
  lemma ScreensApartExactly(p: Params, g: Groups)
    requires Valid(p) && Divides(p, g)
    ensures g.cols * g.rows > 0
    ensures ScreensApart(p, g) <==> g.rows == 1 || g.cols == p.cols
  {
    GroupsAreServersExactly(p, g);
    if g.rows == 1 || g.cols == p.cols {
      forall r, c, s, d | 0 <= r < p.rows && 0 <= c < p.cols && 0 <= s < p.rows && 0 <= d < p.cols && (r != s || c != d)
                          && ServerOf(p, g, r, c) == ServerOf(p, g, s, d)
        ensures PositionAt(p, g, r, c) != PositionAt(p, g, s, d)
      {
        GroupPositionsDiffer(p, g, r, c, s, d);
      }
    } else {
      assert g.cols < p.cols by { MulLe(1, Across(p, g), g.cols); }
      OriginTwice(p, g);
    }
  }
}
