/** The tiled display as a whole: which server drives which block, the groups of blocks
    that Xinerama combines, and normalized coordinates. */
module Tiled {
  import opened Resources
  import opened Spans
  import opened Layout

  // ---------------------------------------------------------------- servers

  /** The server of a block, and the number of its screen there. */
  datatype Owner = Owner(server: nat, screen: nat)

  /** Blocks are handed to servers in turn; counts has the GPUs of each server. */
  function Owners(counts: seq<nat>): seq<Owner> {
    if counts == [] then []
    else
      var n := |counts| - 1;
      Owners(counts[..n]) + seq(counts[n], j requires 0 <= j => Owner(n, j))
  }

  lemma {:induction false} OwnersCount(counts: seq<nat>)
    ensures |Owners(counts)| == Length(counts)
  {
    if counts != [] {
      var n := |counts| - 1;
      OwnersCount(counts[..n]);
      StartOfPart(counts, n, n);
    }
  }

  /** GPUs are counted through server by server. */
  lemma {:induction false} OwnerAt(counts: seq<nat>, i: nat)
    requires i < |Owners(counts)|
    ensures var o := Owners(counts)[i]; o.server < |counts| && o.screen < counts[o.server] && Start(counts, o.server) + o.screen == i
  {
    var n := |counts| - 1;
    OwnersCount(counts[..n]);
    StartOfPart(counts, n, n);
    if i < |Owners(counts[..n])| {
      OwnerAt(counts[..n], i);
      StartOfPart(counts, n, Owners(counts)[i].server);
    }
  }

  method AssignServers(counts: seq<nat>) returns (owners: seq<Owner>)
    ensures owners == Owners(counts)
  {
    owners := [];
    for s := 0 to |counts|
      invariant owners == Owners(counts[..s])
    {
      assert counts[..s + 1][..s] == counts[..s];
      for j := 0 to counts[s]
        invariant owners == Owners(counts[..s]) + seq(j, i requires 0 <= i => Owner(s, i))
      {
        owners := owners + [Owner(s, j)];
      }
    }
    assert counts[..|counts|] == counts;
  }

  lemma DivUnique(m: nat, k: nat, j: nat)
    requires j < k
    ensures (m * k + j) / k == m && (m * k + j) % k == j
  {
    var n := m * k + j;
    var q, t := n / k, n % k;
    assert n == q * k + t;
    if q > m { MulLe(m + 1, q, k); }
    if q < m { MulLe(q + 1, m, k); }
  }

  /** When every server has k GPUs, block i belongs to server i / k. */
  lemma {:induction false} EqualShares(counts: seq<nat>, k: nat, i: nat)
    requires k > 0 && (forall s | 0 <= s < |counts| :: counts[s] == k) && i < |Owners(counts)|
    ensures Owners(counts)[i] == Owner(i / k, i % k)
  {
    var n := |counts| - 1;
    OwnersLength(counts[..n], k);
    if i < n * k {
      EqualShares(counts[..n], k, i);
    } else {
      DivUnique(n, k, i - n * k);
    }
  }

  lemma {:induction false} OwnersLength(counts: seq<nat>, k: nat)
    requires forall s | 0 <= s < |counts| :: counts[s] == k
    ensures |Owners(counts)| == |counts| * k
  {
    if counts != [] {
      var n := |counts| - 1;
      OwnersLength(counts[..n], k);
      assert |Owners(counts)| == |Owners(counts[..n])| + counts[n];
      assert (n + 1) * k == n * k + k;
    }
  }

  // ----------------------------------------------------------------- groups

  /** Groups of cols by rows blocks. */
  datatype Groups = Groups(cols: nat, rows: nat)

  predicate Divides(p: Params, g: Groups) {
    g.cols > 0 && g.rows > 0 && p.cols % g.cols == 0 && p.rows % g.rows == 0
  }

  function Across(p: Params, g: Groups): (n: nat)
    requires Divides(p, g)
    ensures p.cols == n * g.cols
  {
    p.cols / g.cols
  }

  function Down(p: Params, g: Groups): (n: nat)
    requires Divides(p, g)
    ensures p.rows == n * g.rows
  {
    p.rows / g.rows
  }

  /** The server of a block when each server has as many GPUs as a group has blocks. */
  function ServerOf(p: Params, g: Groups, r: nat, c: nat): nat
    requires g.cols * g.rows > 0
  {
    (r * p.cols + c) / (g.cols * g.rows)
  }

  ghost predicate SameGroup(g: Groups, r: nat, c: nat, s: nat, d: nat)
    requires g.cols > 0 && g.rows > 0
  {
    r / g.rows == s / g.rows && c / g.cols == d / g.cols
  }

  ghost predicate GroupsAreServers(p: Params, g: Groups)
    requires Divides(p, g) && g.cols * g.rows > 0
  {
    forall r, c, s, d | 0 <= r < p.rows && 0 <= c < p.cols && 0 <= s < p.rows && 0 <= d < p.cols ::
      SameGroup(g, r, c, s, d) <==> ServerOf(p, g, r, c) == ServerOf(p, g, s, d)
  }

  lemma OneRowServer(p: Params, g: Groups, r: nat, c: nat)
    requires Divides(p, g) && g.rows == 1 && c < p.cols
    ensures ServerOf(p, g, r, c) == r * Across(p, g) + c / g.cols && c / g.cols < Across(p, g)
  {
    var a, q, m := Across(p, g), c / g.cols, c % g.cols;
    assert c == q * g.cols + m;
    assert r * p.cols + c == (r * a + q) * g.cols + m by {
      assert r * (a * g.cols) == (r * a) * g.cols;
    }
    DivUnique(r * a + q, g.cols, m);
  }

  lemma FullWidthServer(p: Params, g: Groups, r: nat, c: nat)
    requires Divides(p, g) && g.cols == p.cols && c < p.cols
    ensures g.cols * g.rows > 0 && ServerOf(p, g, r, c) == r / g.rows
  {
    var q, m, k := r / g.rows, r % g.rows, g.cols * g.rows;
    assert r == q * g.rows + m;
    assert r * p.cols + c == q * k + (m * p.cols + c) by {
      assert (q * g.rows) * p.cols == q * (g.rows * p.cols);
    }
    assert m * p.cols + c < k by {
      assert (m + 1) * p.cols <= g.rows * p.cols by { MulLe(m + 1, g.rows, p.cols); }
    }
    DivUnique(q, k, m * p.cols + c);
  }

  lemma SameQuotient(a: nat, r: nat, q: nat, s: nat, t: nat)
    requires q < a && t < a && r * a + q == s * a + t
    ensures r == s && q == t
  {
    DivUnique(r, a, q);
    DivUnique(s, a, t);
  }

  /** The blocks of a group are the blocks of one server exactly when groups are one
      row high or as wide as the wall. */
  lemma GroupsAreServersExactly(p: Params, g: Groups)
    requires Valid(p) && Divides(p, g)
    ensures g.cols * g.rows > 0
    ensures GroupsAreServers(p, g) <==> g.rows == 1 || g.cols == p.cols
  {
    assert g.cols * g.rows > 0 by { MulLe(1, g.cols, g.rows); }
    if g.rows == 1 || g.cols == p.cols {
      forall r, c, s, d | 0 <= r < p.rows && 0 <= c < p.cols && 0 <= s < p.rows && 0 <= d < p.cols
        ensures SameGroup(g, r, c, s, d) <==> ServerOf(p, g, r, c) == ServerOf(p, g, s, d)
      {
        ServerDecides(p, g, r, c, s, d);
      }
    } else {
      TallGroupIsSplit(p, g);
    }
  }

  lemma ServerDecides(p: Params, g: Groups, r: nat, c: nat, s: nat, d: nat)
    requires Valid(p) && Divides(p, g) && (g.rows == 1 || g.cols == p.cols) && g.cols * g.rows > 0
    requires c < p.cols && d < p.cols
    ensures SameGroup(g, r, c, s, d) <==> ServerOf(p, g, r, c) == ServerOf(p, g, s, d)
  {
    if g.rows == 1 {
      OneRowDecides(p, g, r, c, s, d);
    } else {
      FullWidthServer(p, g, r, c);
      FullWidthServer(p, g, s, d);
      DivSmall(c, p.cols);
      DivSmall(d, p.cols);
    }
  }

  lemma DivSmall(c: nat, k: nat)
    requires c < k
    ensures c / k == 0
  {
  }

  lemma OneRowDecides(p: Params, g: Groups, r: nat, c: nat, s: nat, d: nat)
    requires Divides(p, g) && g.rows == 1 && c < p.cols && d < p.cols
    ensures SameGroup(g, r, c, s, d) <==> ServerOf(p, g, r, c) == ServerOf(p, g, s, d)
  {
    OneRowServer(p, g, r, c);
    OneRowServer(p, g, s, d);
    ByOne(r, g.rows);
    ByOne(s, g.rows);
    QuotientsDecide(Across(p, g), r, c / g.cols, s, d / g.cols);
  }

  lemma ByOne(r: nat, k: nat)
    requires k == 1
    ensures r / k == r
  {
  }

  lemma QuotientsDecide(a: nat, r: nat, q: nat, s: nat, t: nat)
    requires q < a && t < a
    ensures r * a + q == s * a + t <==> r == s && q == t
  {
    if r * a + q == s * a + t { SameQuotient(a, r, q, s, t); }
  }

  /** A group that is neither spreads over servers: its last row starts on another
      server than its first. */
  lemma TallGroupIsSplit(p: Params, g: Groups)
    requires Valid(p) && Divides(p, g) && g.rows > 1 && g.cols != p.cols && g.cols * g.rows > 0
    ensures !GroupsAreServers(p, g)
  {
    var r, k, a := g.rows - 1, g.cols * g.rows, Across(p, g);
    assert a != 0 && a != 1;
    assert r < p.rows by { MulLe(1, Down(p, g), g.rows); }
    assert r * p.cols >= k by {
      assert r * (a * g.cols) == (r * a) * g.cols;
      assert r * a >= g.rows by { MulLe(2, a, r); }
      MulLe(g.rows, r * a, g.cols);
    }
    assert ServerOf(p, g, r, 0) >= 1 by { DivUnique(1, k, 0); DivGrows(k, r * p.cols, k); }
    assert ServerOf(p, g, 0, 0) == 0;
    assert SameGroup(g, 0, 0, r, 0);
  }

  lemma DivGrows(a: nat, b: nat, k: nat)
    requires a <= b && k > 0
    ensures a / k <= b / k
  {
    if a / k > b / k { MulLe(b / k + 1, a / k, k); }
  }

  // ------------------------------------------------------- boxes of groups

  /** w by h blocks, the first one in row y and column x. */
  predicate InGrid(p: Params, x: nat, y: nat, w: nat, h: nat) { w > 0 && h > 0 && x + w <= p.cols && y + h <= p.rows }

  /** Their rectangle: from the first block to the last. */
  function AreaRect(p: Params, x: nat, y: nat, w: nat, h: nat): Rect
    requires InGrid(p, x, y, w, h)
  {
    Rect(Start(ColWidths(p), x), Start(RowHeights(p), y), Start(ColWidths(p), x + w), Start(RowHeights(p), y + h))
  }

  lemma GroupInGrid(p: Params, g: Groups, R: nat, C: nat)
    requires Divides(p, g) && R < Down(p, g) && C < Across(p, g)
    ensures InGrid(p, C * g.cols, R * g.rows, g.cols, g.rows)
    ensures C * g.cols + g.cols == (C + 1) * g.cols && R * g.rows + g.rows == (R + 1) * g.rows
  {
    MulLe(C + 1, Across(p, g), g.cols);
    MulLe(R + 1, Down(p, g), g.rows);
  }

  /** The rectangle of group R, C. */
  function GroupRect(p: Params, g: Groups, R: nat, C: nat): Rect
    requires Divides(p, g) && R < Down(p, g) && C < Across(p, g)
  {
    GroupInGrid(p, g, R, C);
    AreaRect(p, C * g.cols, R * g.rows, g.cols, g.rows)
  }

  /** Where the search for the least coordinate starts. */
  const FAR: nat := 10000000

  function Min(a: nat, b: nat): nat { if a < b then a else b }

  function Max(a: nat, b: nat): nat { if a < b then b else a }

  /** The box the code computes. */
  function Box(p: Params, x: nat, y: nat, w: nat, h: nat): Rect
    requires InGrid(p, x, y, w, h)
  {
    var r := AreaRect(p, x, y, w, h);
    Rect(Min(r.x1, FAR), Min(r.y1, FAR), r.x2, r.y2)
  }

  /** The box is right exactly for blocks that start within ten million pixels. */
  lemma BoxExact(p: Params, x: nat, y: nat, w: nat, h: nat)
    requires InGrid(p, x, y, w, h)
    ensures Box(p, x, y, w, h) == AreaRect(p, x, y, w, h) <==> Start(ColWidths(p), x) <= FAR && Start(RowHeights(p), y) <= FAR
  {
  }

  /** Each of the blocks lies in their rectangle. */
  lemma BlockInArea(p: Params, x: nat, y: nat, w: nat, h: nat, r: nat, c: nat)
    requires InGrid(p, x, y, w, h) && r < h && c < w
    ensures var b, q := BlockRect(p, y + r, x + c), AreaRect(p, x, y, w, h);
            q.x1 <= b.x1 <= b.x2 <= q.x2 && q.y1 <= b.y1 <= b.y2 <= q.y2
  {
    SpanInside(ColWidths(p), x, w, c);
    SpanInside(RowHeights(p), y, h, r);
  }

  lemma GroupIsSpan(p: Params, g: Groups, R: nat, C: nat, x: real, y: real)
    requires Divides(p, g) && R < Down(p, g) && C < Across(p, g)
    ensures Inside(GroupRect(p, g, R, C), x, y)
       <==> In(Grouped(ColWidths(p), g.cols, Across(p, g)), C, x) && In(Grouped(RowHeights(p), g.rows, Down(p, g)), R, y)
  {
    GroupIn(ColWidths(p), g.cols, Across(p, g), C, x);
    GroupIn(RowHeights(p), g.rows, Down(p, g), R, y);
  }

  /** Groups are a coarser partition: each point of the wall lies in exactly one
      group's rectangle. */
  lemma GroupsPartitionWall(p: Params, g: Groups, x: real, y: real)
    requires Valid(p) && Divides(p, g)
    requires 0.0 <= x < Length(ColWidths(p)) as real && 0.0 <= y < Length(RowHeights(p)) as real
    ensures exists R, C | 0 <= R < Down(p, g) && 0 <= C < Across(p, g) :: Inside(GroupRect(p, g, R, C), x, y)
    ensures forall R, C, S, D | 0 <= R < Down(p, g) && 0 <= C < Across(p, g) && 0 <= S < Down(p, g) && 0 <= D < Across(p, g) ::
              Inside(GroupRect(p, g, R, C), x, y) && Inside(GroupRect(p, g, S, D), x, y) ==> R == S && C == D
  {
    var ws, hs := Grouped(ColWidths(p), g.cols, Across(p, g)), Grouped(RowHeights(p), g.rows, Down(p, g));
    GroupStart(ColWidths(p), g.cols, Across(p, g), Across(p, g));
    GroupStart(RowHeights(p), g.rows, Down(p, g), Down(p, g));
    var C := Locate(ws, Across(p, g), x);
    var R := Locate(hs, Down(p, g), y);
    GroupIsSpan(p, g, R, C, x, y);
    assert Inside(GroupRect(p, g, R, C), x, y);
    forall R, C, S, D | 0 <= R < Down(p, g) && 0 <= C < Across(p, g) && 0 <= S < Down(p, g) && 0 <= D < Across(p, g)
                        && Inside(GroupRect(p, g, R, C), x, y) && Inside(GroupRect(p, g, S, D), x, y)
      ensures R == S && C == D
    {
      GroupIsSpan(p, g, R, C, x, y);
      GroupIsSpan(p, g, S, D, x, y);
      InOneOnly(ws, C, D, x);
      InOneOnly(hs, R, S, y);
    }
  }

  /** Where a block starts, seen from the first block of its group. */
  function Offset(p: Params, x: nat, y: nat, r: nat, c: nat): (int, int)
    requires x + c < p.cols && y + r < p.rows
  {
    (Start(ColWidths(p), x + c) - Start(ColWidths(p), x), Start(RowHeights(p), y + r) - Start(RowHeights(p), y))
  }

  lemma OffsetsArePositions(p: Params, x: nat, y: nat, w: nat, h: nat, r: nat, c: nat)
    requires InGrid(p, x, y, w, h) && r < h && c < w
    ensures Offset(p, x, y, r, c).0 >= 0 && Offset(p, x, y, r, c).1 >= 0
    ensures Offset(p, x, y, 0, 0) == (0, 0)
  {
    BlockInArea(p, x, y, w, h, r, c);
  }

  /** The rectangles of the blocks are those of a grid with these columns and rows. */
  ghost predicate GridOf(blocks: seq<seq<Shown>>, ws: seq<nat>, hs: seq<nat>) {
    |blocks| == |hs| && forall r | 0 <= r < |hs| ::
      |blocks[r]| == |ws| && forall c | 0 <= c < |ws| ::
        blocks[r][c].rect == Rect(Start(ws, c), Start(hs, r), Start(ws, c + 1), Start(hs, r + 1))
  }

  lemma PlacedIsGrid(p: Params, blocks: seq<seq<Shown>>)
    requires Valid(p) && Placed(p, blocks)
    ensures GridOf(blocks, ColWidths(p), RowHeights(p))
  {
    var ws, hs := ColWidths(p), RowHeights(p);
    forall r | 0 <= r < |hs|
      ensures |blocks[r]| == |ws| && forall c | 0 <= c < |ws| :: blocks[r][c].rect == Rect(Start(ws, c), Start(hs, r), Start(ws, c + 1), Start(hs, r + 1))
    {
      forall c | 0 <= c < |ws|
        ensures blocks[r][c].rect == Rect(Start(ws, c), Start(hs, r), Start(ws, c + 1), Start(hs, r + 1))
      {
        assert blocks[r][c] == Block(p, r, c);
      }
    }
  }

  /** The rectangles of blocks, row by row. */
  ghost predicate RectsOf(p: Params, rects: seq<seq<Rect>>) {
    |rects| == p.rows && forall r | 0 <= r < p.rows :: |rects[r]| == p.cols && forall c | 0 <= c < p.cols :: rects[r][c] == BlockRect(p, r, c)
  }

  method Rects(p: Params, blocks: seq<seq<Shown>>) returns (rects: seq<seq<Rect>>)
    requires Valid(p) && Placed(p, blocks)
    ensures RectsOf(p, rects)
  {
    rects := seq(|blocks|, r requires 0 <= r < |blocks| => seq(|blocks[r]|, c requires 0 <= c < |blocks[r]| => blocks[r][c].rect));
  }

  lemma OffsetIs(p: Params, x: nat, y: nat, r: nat, c: nat)
    requires x + c < p.cols && y + r < p.rows
    ensures var b, o := BlockRect(p, y + r, x + c), BlockRect(p, y, x);
            Offset(p, x, y, r, c) == (b.x1 - o.x1, b.y1 - o.y1)
  {
  }

  /** Set the positions of the screens of one row of a group. */
  method PositionRow(p: Params, areas: seq<Rect>, origin: Rect, x: nat, y: nat, w: nat, r: nat) returns (line: seq<(int, int)>)
    requires w > 0 && x + w <= p.cols && y + r < p.rows && origin == BlockRect(p, y, x)
    requires |areas| == w && forall c | 0 <= c < w :: areas[c] == BlockRect(p, y + r, x + c)
    ensures |line| == w && forall c | 0 <= c < w :: line[c] == Offset(p, x, y, r, c)
  {
    line := [];
    for c := 0 to w
      invariant |line| == c && forall j | 0 <= j < c :: line[j] == Offset(p, x, y, r, j)
    {
      OffsetIs(p, x, y, r, c);
      line := line + [(areas[c].x1 - origin.x1, areas[c].y1 - origin.y1)];
    }
  }

  method PositionGroup(p: Params, blocks: seq<seq<Shown>>, x: nat, y: nat, w: nat, h: nat) returns (at: seq<seq<(int, int)>>)
    requires Valid(p) && InGrid(p, x, y, w, h) && Placed(p, blocks)
    ensures |at| == h && forall r | 0 <= r < h :: |at[r]| == w && forall c | 0 <= c < w :: at[r][c] == Offset(p, x, y, r, c)
  {
    var rects := Rects(p, blocks);
    at := [];
    for r := 0 to h
      invariant |at| == r && forall i | 0 <= i < r :: |at[i]| == w && forall c | 0 <= c < w :: at[i][c] == Offset(p, x, y, i, c)
    {
      var line := PositionRow(p, rects[y + r][x..x + w], rects[y][x], x, y, w, r);
      at := at + [line];
    }
  }

  /** Stretch a box over the blocks of one row. */
  method StretchRow(line: seq<Shown>, ghost ws: seq<nat>, ghost y1: nat, ghost y2: nat, x: nat, w: nat, box0: Rect) returns (box: Rect)
    requires w > 0 && x + w <= |line| == |ws| && y1 <= y2
    requires forall c | 0 <= c < |line| :: line[c].rect == Rect(Start(ws, c), y1, Start(ws, c + 1), y2)
    ensures box == Rect(Min(Start(ws, x), box0.x1), Min(y1, box0.y1), Max(Start(ws, x + w), box0.x2), Max(y2, box0.y2))
  {
    var minX, minY, maxX, maxY := box0.x1, box0.y1, box0.x2, box0.y2;
    for c := 0 to w
      invariant c == 0 ==> (minX, minY, maxX, maxY) == (box0.x1, box0.y1, box0.x2, box0.y2)
      invariant c > 0 ==> minX == Min(Start(ws, x), box0.x1) && maxX == Max(Start(ws, x + c), box0.x2)
      invariant c > 0 ==> minY == Min(y1, box0.y1) && maxY == Max(y2, box0.y2)
    {
      SpanInside(ws, x, w, c);
      var area := line[x + c].rect;
      maxX, maxY := Max(Max(area.x1, area.x2), maxX), Max(Max(area.y1, area.y2), maxY);
      minX, minY := Min(Min(area.x1, area.x2), minX), Min(Min(area.y1, area.y2), minY);
    }
    box := Rect(minX, minY, maxX, maxY);
  }

  /** The bounding box of a group of blocks, row by row. */
  method StretchAll(blocks: seq<seq<Shown>>, ghost ws: seq<nat>, ghost hs: seq<nat>, x: nat, y: nat, w: nat, h: nat) returns (box: Rect)
    requires GridOf(blocks, ws, hs) && w > 0 && h > 0 && x + w <= |ws| && y + h <= |hs|
    ensures box == Rect(Min(Start(ws, x), FAR), Min(Start(hs, y), FAR), Start(ws, x + w), Start(hs, y + h))
  {
    box := Rect(FAR, FAR, 0, 0);
    StartGrows(ws, x, x + w);
    for r := 0 to h
      invariant r == 0 ==> box == Rect(FAR, FAR, 0, 0)
      invariant r > 0 ==> box == Rect(Min(Start(ws, x), FAR), Min(Start(hs, y), FAR), Start(ws, x + w), Start(hs, y + r))
    {
      SpanInside(hs, y, h, r);
      box := StretchRow(blocks[y + r], ws, Start(hs, y + r), Start(hs, y + r + 1), x, w, box);
    }
  }

  method BoundingBox(p: Params, blocks: seq<seq<Shown>>, x: nat, y: nat, w: nat, h: nat) returns (box: Rect)
    requires Valid(p) && InGrid(p, x, y, w, h) && Placed(p, blocks)
    ensures box == Box(p, x, y, w, h)
  {
    PlacedIsGrid(p, blocks);
    box := StretchAll(blocks, ColWidths(p), RowHeights(p), x, y, w, h);
  }
}
