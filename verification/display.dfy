/** Setting up a tiled display: the passes over its blocks, and the matrices they leave
    behind for the actual blocks and for what Xinerama makes of them. */
module Display {
  import opened Resources
  import opened Spans
  import opened Layout
  import opened Tiled

  // ------------------------------------------------------ normalized areas

  /** Coordinates from 0 to 1; y grows upwards. */
  datatype GlArea = GlArea(x1: real, y1: real, x2: real, y2: real)

  function GlOf(r: Rect, w: nat, h: nat): GlArea
    requires w > 0 && h > 0
  {
    GlArea(r.x1 as real / w as real, 1.0 - r.y2 as real / h as real, r.x2 as real / w as real, 1.0 - r.y1 as real / h as real)
  }

  ghost predicate InsideGl(a: GlArea, u: real, v: real) { a.x1 <= u < a.x2 && a.y1 < v <= a.y2 }

  lemma QuotientLe(a: real, w: real, u: real)
    requires w > 0.0
    ensures a / w <= u <==> a <= u * w
    ensures a / w < u <==> a < u * w
  {
    var q := a / w;
    assert q * w == a;
    if q <= u { assert (u - q) * w >= 0.0; } else { assert (q - u) * w > 0.0; }
    if q < u { assert (u - q) * w > 0.0; } else { assert (q - u) * w >= 0.0; }
  }

  /** A normalized area contains a point exactly when its rectangle contains the point
      scaled up. */
  lemma GlScales(r: Rect, w: nat, h: nat, u: real, v: real)
    requires w > 0 && h > 0
    ensures InsideGl(GlOf(r, w, h), u, v) <==> Inside(r, u * w as real, (1.0 - v) * h as real)
  {
    QuotientLe(r.x1 as real, w as real, u);
    QuotientLe(r.x2 as real, w as real, u);
    QuotientLe(r.y1 as real, h as real, 1.0 - v);
    QuotientLe(r.y2 as real, h as real, 1.0 - v);
  }

  lemma ScaledInside(w: nat, u: real)
    requires w > 0 && 0.0 <= u < 1.0
    ensures 0.0 <= u * w as real < w as real
  {
    var n := w as real;
    assert n >= 1.0;
    assert u * n >= 0.0;
    assert (1.0 - u) * n > 0.0;
  }

  lemma WallHasSize(p: Params)
    requires Valid(p)
    ensures Length(ColWidths(p)) > 0 && Length(RowHeights(p)) > 0
  {
    BlocksInWall(p, 0, 0);
  }

  function BlockGl(p: Params, r: nat, c: nat): GlArea
    requires Valid(p) && r < p.rows && c < p.cols
  {
    WallHasSize(p);
    GlOf(BlockRect(p, r, c), Length(ColWidths(p)), Length(RowHeights(p)))
  }

  /** The point of a wall a normalized point stands for. */
  lemma ScaledPoint(w: nat, h: nat, u: real, v: real) returns (x: real, y: real)
    requires w > 0 && h > 0 && 0.0 <= u < 1.0 && 0.0 < v <= 1.0
    ensures 0.0 <= x < w as real
    ensures 0.0 <= y < h as real
    ensures forall r: Rect :: InsideGl(GlOf(r, w, h), u, v) <==> Inside(r, x, y)
  {
    ScaledInside(w, u);
    x := u * w as real;
    assert x < w as real;
    ScaledInside(h, 1.0 - v);
    y := (1.0 - v) * h as real;
    forall r: Rect
      ensures InsideGl(GlOf(r, w, h), u, v) <==> Inside(r, x, y)
    {
      GlScales(r, w, h, u, v);
    }
  }

  /** The normalized areas of the blocks partition the unit square. */
  lemma GlAreasPartitionSquare(p: Params, u: real, v: real)
    requires Valid(p) && 0.0 <= u < 1.0 && 0.0 < v <= 1.0
    ensures exists r, c | 0 <= r < p.rows && 0 <= c < p.cols :: InsideGl(BlockGl(p, r, c), u, v)
    ensures forall r, c, s, d | 0 <= r < p.rows && 0 <= c < p.cols && 0 <= s < p.rows && 0 <= d < p.cols ::
              InsideGl(BlockGl(p, r, c), u, v) && InsideGl(BlockGl(p, s, d), u, v) ==> r == s && c == d
  {
    WallHasSize(p);
    var x, y := ScaledPoint(Length(ColWidths(p)), Length(RowHeights(p)), u, v);
    BlocksPartitionWall(p, x, y);
    var r, c :| 0 <= r < p.rows && 0 <= c < p.cols && Inside(BlockRect(p, r, c), x, y);
    assert InsideGl(BlockGl(p, r, c), u, v);
  }

  /** Normalize a matrix of rectangles by the far corner of the last one. */
  method GlAreas(rects: seq<seq<Rect>>) returns (areas: seq<seq<GlArea>>)
    requires |rects| > 0 && |rects[0]| > 0 && forall r | 0 <= r < |rects| :: |rects[r]| == |rects[0]|
    requires var last := rects[|rects| - 1][|rects[0]| - 1]; last.x2 > 0 && last.y2 > 0
    ensures var last := rects[|rects| - 1][|rects[0]| - 1];
            |areas| == |rects| && forall r | 0 <= r < |rects| ::
              |areas[r]| == |rects[0]| && forall c | 0 <= c < |rects[0]| :: areas[r][c] == GlOf(rects[r][c], last.x2, last.y2)
  {
    var last := rects[|rects| - 1][|rects[0]| - 1];
    areas := [];
    for r := 0 to |rects|
      invariant |areas| == r && forall i | 0 <= i < r ::
        |areas[i]| == |rects[0]| && forall c | 0 <= c < |rects[0]| :: areas[i][c] == GlOf(rects[i][c], last.x2, last.y2)
    {
      var line: seq<GlArea> := [];
      for c := 0 to |rects[0]|
        invariant |line| == c && forall j | 0 <= j < c :: line[j] == GlOf(rects[r][j], last.x2, last.y2)
      {
        line := line + [GlOf(rects[r][c], last.x2, last.y2)];
      }
      areas := areas + [line];
    }
  }

  // -------------------------------------------------------------- positions

  /** A block's position in its group. */
  function PositionAt(p: Params, g: Groups, r: nat, c: nat): (int, int)
    requires Divides(p, g) && r < p.rows && c < p.cols
  {
    Offset(p, c / g.cols * g.cols, r / g.rows * g.rows, r % g.rows, c % g.cols)
  }

  lemma PositionOf(p: Params, g: Groups, R: nat, C: nat, i: nat, j: nat)
    requires Divides(p, g) && R < Down(p, g) && C < Across(p, g) && i < g.rows && j < g.cols
    ensures R * g.rows + i < p.rows && C * g.cols + j < p.cols
    ensures PositionAt(p, g, R * g.rows + i, C * g.cols + j) == Offset(p, C * g.cols, R * g.rows, i, j)
  {
    GroupInGrid(p, g, R, C);
    DivUnique(R, g.rows, i);
    DivUnique(C, g.cols, j);
  }

  predicate InBox(r: nat, c: nat, x: nat, y: nat, w: nat, h: nat) { y <= r < y + h && x <= c < x + w }

  /** Write a small matrix into a large one, at column x and row y. */
  method WriteAt(at: array2<(int, int)>, offsets: seq<seq<(int, int)>>, x: nat, y: nat, w: nat, h: nat)
    requires y + h <= at.Length0 && x + w <= at.Length1
    requires |offsets| == h && forall i | 0 <= i < h :: |offsets[i]| == w
    modifies at
    ensures forall r, c | 0 <= r < at.Length0 && 0 <= c < at.Length1 ::
              at[r, c] == if InBox(r, c, x, y, w, h) then offsets[r - y][c - x] else old(at[r, c])
  {
    for i := 0 to h
      invariant forall r, c | 0 <= r < at.Length0 && 0 <= c < at.Length1 ::
                  at[r, c] == if InBox(r, c, x, y, w, i) then offsets[r - y][c - x] else old(at[r, c])
    {
      for j := 0 to w
        invariant forall r, c | 0 <= r < at.Length0 && 0 <= c < at.Length1 ::
                    at[r, c] == if InBox(r, c, x, y, w, i) || InBox(r, c, x, y + i, j, 1) then offsets[r - y][c - x] else old(at[r, c])
      {
        at[y + i, x + j] := offsets[i][j];
      }
    }
  }

  /** Write the positions of one group into the matrix. */
  method WriteGroup(p: Params, g: Groups, blocks: seq<seq<Shown>>, R: nat, C: nat, at: array2<(int, int)>)
    requires Valid(p) && Divides(p, g) && R < Down(p, g) && C < Across(p, g) && Placed(p, blocks)
    requires at.Length0 == p.rows && at.Length1 == p.cols
    modifies at
    ensures InGrid(p, C * g.cols, R * g.rows, g.cols, g.rows)
    ensures forall r, c | 0 <= r < p.rows && 0 <= c < p.cols ::
              at[r, c] == if InBox(r, c, C * g.cols, R * g.rows, g.cols, g.rows) then PositionAt(p, g, r, c) else old(at[r, c])
  {
    GroupInGrid(p, g, R, C);
    var x, y := C * g.cols, R * g.rows;
    var offsets := PositionGroup(p, blocks, x, y, g.cols, g.rows);
    OffsetsArePlaced(p, g, R, C, offsets);
    WriteAt(at, offsets, x, y, g.cols, g.rows);
  }

  lemma OffsetsArePlaced(p: Params, g: Groups, R: nat, C: nat, offsets: seq<seq<(int, int)>>)
    requires Divides(p, g) && R < Down(p, g) && C < Across(p, g) && InGrid(p, C * g.cols, R * g.rows, g.cols, g.rows)
    requires |offsets| == g.rows && forall r | 0 <= r < g.rows ::
               |offsets[r]| == g.cols && forall c | 0 <= c < g.cols :: offsets[r][c] == Offset(p, C * g.cols, R * g.rows, r, c)
    ensures forall r, c | 0 <= r < p.rows && 0 <= c < p.cols && InBox(r, c, C * g.cols, R * g.rows, g.cols, g.rows) ::
              offsets[r - R * g.rows][c - C * g.cols] == PositionAt(p, g, r, c)
  {
    var x, y := C * g.cols, R * g.rows;
    forall r, c | 0 <= r < p.rows && 0 <= c < p.cols && InBox(r, c, x, y, g.cols, g.rows)
      ensures offsets[r - y][c - x] == PositionAt(p, g, r, c)
    {
      PositionOf(p, g, R, C, r - y, c - x);
    }
  }

  /** Set the position of every screen in its group. */
  method SetPositions(p: Params, g: Groups, blocks: seq<seq<Shown>>) returns (at: array2<(int, int)>)
    requires Valid(p) && Divides(p, g) && Placed(p, blocks)
    ensures fresh(at) && at.Length0 == p.rows && at.Length1 == p.cols
    ensures forall r, c | 0 <= r < p.rows && 0 <= c < p.cols :: at[r, c] == PositionAt(p, g, r, c)
  {
    at := new (int, int)[p.rows, p.cols]((r, c) => (0, 0));
    for R := 0 to Down(p, g)
      invariant R * g.rows <= p.rows
      invariant forall r, c | 0 <= r < R * g.rows && 0 <= c < p.cols :: at[r, c] == PositionAt(p, g, r, c)
    {
      MulLe(R + 1, Down(p, g), g.rows);
      for C := 0 to Across(p, g)
        invariant C * g.cols <= p.cols
        invariant forall r, c | 0 <= r < R * g.rows && 0 <= c < p.cols :: at[r, c] == PositionAt(p, g, r, c)
        invariant R * g.rows + g.rows <= p.rows
        invariant forall r, c | R * g.rows <= r < R * g.rows + g.rows && 0 <= c < C * g.cols :: at[r, c] == PositionAt(p, g, r, c)
      {
        GroupInGrid(p, g, R, C);
        WriteGroup(p, g, blocks, R, C, at);
      }
    }
  }

  // ---------------------------------------------------------------- the wall

  /** A block of the wall: what it shows, who drives it, where its screen is. */
  datatype Cell = Cell(shown: Shown, owner: Owner, position: Option<(int, int)>, gl: GlArea)

  /** What an application sees as one block. */
  datatype Area = Area(rect: Rect, server: nat, gl: GlArea)

  /** What a tiled display asks for beyond its geometry. */
  predicate Acceptable(p: Params, groups: Option<Groups>, combine: bool, counts: seq<nat>) {
    && Valid(p)
    && (groups.Some? ==> Divides(p, groups.value))
    && (combine ==> groups.Some?)
    && (forall s | 0 <= s < |counts| :: counts[s] > 0)
    && |Owners(counts)| == p.cols * p.rows
    && (combine ==> forall s | 0 <= s < |counts| :: counts[s] == groups.value.cols * groups.value.rows)
  }

  lemma CellIndex(p: Params, r: nat, c: nat)
    requires r < p.rows && c < p.cols
    ensures r * p.cols + c < p.cols * p.rows
  {
    MulLe(r + 1, p.rows, p.cols);
  }

  /** Block r, c as the setup leaves it. */
  function CellAt(p: Params, groups: Option<Groups>, counts: seq<nat>, r: nat, c: nat): Cell
    requires Acceptable(p, groups, false, counts) && r < p.rows && c < p.cols
  {
    CellIndex(p, r, c);
    Cell(Block(p, r, c), Owners(counts)[r * p.cols + c],
         if groups.Some? then Some(PositionAt(p, groups.value, r, c)) else None, BlockGl(p, r, c))
  }

  /** A group's first block is a block of the wall. */
  lemma GroupStarts(p: Params, g: Groups, R: nat, C: nat)
    requires Valid(p) && Divides(p, g) && R < Down(p, g) && C < Across(p, g)
    ensures InGrid(p, C * g.cols, R * g.rows, g.cols, g.rows) && 0 <= R * g.rows * p.cols + C * g.cols < p.cols * p.rows
    ensures Length(ColWidths(p)) > 0 && Length(RowHeights(p)) > 0
  {
    GroupInGrid(p, g, R, C);
    CellIndex(p, R * g.rows, C * g.cols);
    WallHasSize(p);
  }

  /** What Xinerama makes of group R, C: the box computed for it, driven by the server
      of its first block, normalized by the box of the last group. */
  function GroupArea(p: Params, g: Groups, counts: seq<nat>, R: nat, C: nat): Area
    requires Acceptable(p, Some(g), true, counts) && R < Down(p, g) && C < Across(p, g)
  {
    GroupStarts(p, g, R, C);
    var box := Box(p, C * g.cols, R * g.rows, g.cols, g.rows);
    Area(box, Owners(counts)[R * g.rows * p.cols + C * g.cols].server, GlOf(box, Length(ColWidths(p)), Length(RowHeights(p))))
  }

  ghost predicate CellsOf(p: Params, groups: Option<Groups>, counts: seq<nat>, cells: seq<seq<Cell>>)
    requires Acceptable(p, groups, false, counts)
  {
    |cells| == p.rows && forall r | 0 <= r < p.rows :: CellRowOf(p, groups, counts, r, p.cols, cells[r])
  }

  /** The first n cells of row r. */
  ghost predicate CellRowOf(p: Params, groups: Option<Groups>, counts: seq<nat>, r: nat, n: nat, cells: seq<Cell>)
    requires Acceptable(p, groups, false, counts) && r < p.rows && n <= p.cols
  {
    |cells| == n && forall c | 0 <= c < n :: cells[c] == CellAt(p, groups, counts, r, c)
  }

  ghost predicate GroupAreasOf(p: Params, g: Groups, counts: seq<nat>, areas: seq<seq<Area>>)
    requires Acceptable(p, Some(g), true, counts)
  {
    |areas| == Down(p, g) && forall R | 0 <= R < Down(p, g) ::
      |areas[R]| == Across(p, g) && forall C | 0 <= C < Across(p, g) :: areas[R][C] == GroupArea(p, g, counts, R, C)
  }

  /** Normalize the blocks. */
  method BlockGlAreas(p: Params, blocks: seq<seq<Shown>>) returns (gl: seq<seq<GlArea>>)
    requires Valid(p) && Placed(p, blocks)
    ensures |gl| == p.rows && forall r | 0 <= r < p.rows ::
      |gl[r]| == p.cols && forall c | 0 <= c < p.cols :: gl[r][c] == BlockGl(p, r, c)
  {
    var rects := Rects(p, blocks);
    WallHasSize(p);
    assert rects[p.rows - 1][p.cols - 1] == BlockRect(p, p.rows - 1, p.cols - 1);
    gl := GlAreas(rects);
    forall r, c | 0 <= r < p.rows && 0 <= c < p.cols
      ensures gl[r][c] == BlockGl(p, r, c)
    {
      assert rects[r][c] == BlockRect(p, r, c);
    }
  }

  ghost predicate Positioned(p: Params, groups: Option<Groups>, at: array2<(int, int)>)
    requires groups.Some? ==> Divides(p, groups.value)
    reads at
  {
    && at.Length0 == p.rows && at.Length1 == p.cols
    && (groups.Some? ==> forall r, c | 0 <= r < p.rows && 0 <= c < p.cols :: at[r, c] == PositionAt(p, groups.value, r, c))
  }

  /** Screens have positions only where blocks are grouped. */
  method SetAllPositions(p: Params, groups: Option<Groups>, blocks: seq<seq<Shown>>) returns (at: array2<(int, int)>)
    requires Valid(p) && (groups.Some? ==> Divides(p, groups.value)) && Placed(p, blocks)
    ensures Positioned(p, groups, at)
  {
    if groups.Some? {
      at := SetPositions(p, groups.value, blocks);
    } else {
      at := new (int, int)[p.rows, p.cols]((r, c) => (0, 0));
    }
  }

  method MakeCell(p: Params, groups: Option<Groups>, counts: seq<nat>, owners: seq<Owner>, r: nat, c: nat, shown: Shown,
                  gl: GlArea, at: array2<(int, int)>) returns (cell: Cell)
    requires Acceptable(p, groups, false, counts) && owners == Owners(counts) && r < p.rows && c < p.cols && Positioned(p, groups, at)
    requires shown == Block(p, r, c) && gl == BlockGl(p, r, c)
    ensures cell == CellAt(p, groups, counts, r, c)
  {
    CellIndex(p, r, c);
    CellParts(p, groups, counts, r, c);
    cell := Cell(shown, owners[r * p.cols + c], if groups.Some? then Some(at[r, c]) else None, gl);
  }

  method MakeCellRow(p: Params, groups: Option<Groups>, counts: seq<nat>, owners: seq<Owner>, r: nat, line: seq<Shown>,
                     gl: seq<GlArea>, at: array2<(int, int)>) returns (cells: seq<Cell>)
    requires Acceptable(p, groups, false, counts) && owners == Owners(counts) && r < p.rows && Positioned(p, groups, at)
    requires |line| == p.cols && forall c | 0 <= c < p.cols :: line[c] == Block(p, r, c)
    requires |gl| == p.cols && forall c | 0 <= c < p.cols :: gl[c] == BlockGl(p, r, c)
    ensures CellRowOf(p, groups, counts, r, p.cols, cells)
  {
    cells := [];
    for c := 0 to p.cols
      invariant CellRowOf(p, groups, counts, r, c, cells)
    {
      var cell := MakeCell(p, groups, counts, owners, r, c, line[c], gl[c], at);
      cells := cells + [cell];
    }
  }

  /** Put together what is known about each block. */
  method MakeCells(p: Params, groups: Option<Groups>, counts: seq<nat>, owners: seq<Owner>, blocks: seq<seq<Shown>>) returns (cells: seq<seq<Cell>>)
    requires Acceptable(p, groups, false, counts) && owners == Owners(counts) && Placed(p, blocks)
    ensures CellsOf(p, groups, counts, cells)
  {
    var gl := BlockGlAreas(p, blocks);
    var at := SetAllPositions(p, groups, blocks);
    cells := [];
    for r := 0 to p.rows
      invariant Positioned(p, groups, at)
      invariant |cells| == r && forall i | 0 <= i < r :: CellRowOf(p, groups, counts, i, p.cols, cells[i])
    {
      var line := MakeCellRow(p, groups, counts, owners, r, blocks[r], gl[r], at);
      cells := cells + [line];
    }
  }

  /** The boxes of all groups. */
  method GroupBoxes(p: Params, g: Groups, blocks: seq<seq<Shown>>) returns (boxes: seq<seq<Rect>>)
    requires Valid(p) && Divides(p, g) && Placed(p, blocks)
    ensures |boxes| == Down(p, g) && forall R | 0 <= R < Down(p, g) ::
      |boxes[R]| == Across(p, g) && forall C | 0 <= C < Across(p, g) :: boxes[R][C] == BoxAt(p, g, R, C)
  {
    boxes := [];
    for R := 0 to Down(p, g)
      invariant |boxes| == R && forall S | 0 <= S < R ::
        |boxes[S]| == Across(p, g) && forall C | 0 <= C < Across(p, g) :: boxes[S][C] == BoxAt(p, g, S, C)
    {
      var line: seq<Rect> := [];
      for C := 0 to Across(p, g)
        invariant |line| == C && forall D | 0 <= D < C :: line[D] == BoxAt(p, g, R, D)
      {
        GroupInGrid(p, g, R, C);
        var box := BoundingBox(p, blocks, C * g.cols, R * g.rows, g.cols, g.rows);
        line := line + [box];
      }
      boxes := boxes + [line];
    }
  }

  function BoxAt(p: Params, g: Groups, R: nat, C: nat): Rect
    requires Divides(p, g) && R < Down(p, g) && C < Across(p, g)
  {
    GroupInGrid(p, g, R, C);
    Box(p, C * g.cols, R * g.rows, g.cols, g.rows)
  }

  lemma LastBox(p: Params, g: Groups)
    requires Valid(p) && Divides(p, g)
    ensures Down(p, g) > 0 && Across(p, g) > 0
    ensures var box := BoxAt(p, g, Down(p, g) - 1, Across(p, g) - 1);
            box.x2 == Length(ColWidths(p)) > 0 && box.y2 == Length(RowHeights(p)) > 0
  {
    WallHasSize(p);
    GroupInGrid(p, g, Down(p, g) - 1, Across(p, g) - 1);
  }

  method CombineRow(p: Params, g: Groups, counts: seq<nat>, owners: seq<Owner>, R: nat, boxes: seq<Rect>, gl: seq<GlArea>) returns (areas: seq<Area>)
    requires Acceptable(p, Some(g), true, counts) && owners == Owners(counts) && R < Down(p, g)
    requires |boxes| == Across(p, g) && forall C | 0 <= C < Across(p, g) :: boxes[C] == BoxAt(p, g, R, C)
    requires Length(ColWidths(p)) > 0 && Length(RowHeights(p)) > 0
    requires |gl| == Across(p, g) && forall C | 0 <= C < Across(p, g) :: gl[C] == GlOf(boxes[C], Length(ColWidths(p)), Length(RowHeights(p)))
    ensures |areas| == Across(p, g) && forall C | 0 <= C < Across(p, g) :: areas[C] == GroupArea(p, g, counts, R, C)
  {
    areas := [];
    for C := 0 to Across(p, g)
      invariant |areas| == C && forall D | 0 <= D < C :: areas[D] == GroupArea(p, g, counts, R, D)
    {
      GroupInGrid(p, g, R, C);
      CellIndex(p, R * g.rows, C * g.cols);
      areas := areas + [Area(boxes[C], owners[R * g.rows * p.cols + C * g.cols].server, gl[C])];
    }
  }

  /** What Xinerama makes of the wall. */
  method CombineBlocks(p: Params, g: Groups, counts: seq<nat>, owners: seq<Owner>, blocks: seq<seq<Shown>>) returns (areas: seq<seq<Area>>)
    requires Acceptable(p, Some(g), true, counts) && owners == Owners(counts) && Placed(p, blocks)
    ensures GroupAreasOf(p, g, counts, areas)
  {
    var boxes := GroupBoxes(p, g, blocks);
    LastBox(p, g);
    var gl := GlAreas(boxes);
    areas := [];
    for R := 0 to Down(p, g)
      invariant |areas| == R && forall S | 0 <= S < R ::
        |areas[S]| == Across(p, g) && forall C | 0 <= C < Across(p, g) :: areas[S][C] == GroupArea(p, g, counts, S, C)
    {
      var line := CombineRow(p, g, counts, owners, R, boxes[R], gl[R]);
      areas := areas + [line];
    }
  }

  /** On a combined wall the block in row r and column c is driven by the server its
      place in the count gives. */
  lemma CellServer(p: Params, g: Groups, counts: seq<nat>, r: nat, c: nat)
    requires Acceptable(p, Some(g), true, counts) && r < p.rows && c < p.cols
    ensures g.cols * g.rows > 0 && CellAt(p, Some(g), counts, r, c).owner.server == ServerOf(p, g, r, c)
  {
    MulLe(1, g.cols, g.rows);
    CellIndex(p, r, c);
    EqualShares(counts, g.cols * g.rows, r * p.cols + c);
  }

  lemma QuotientBack(a: real, w: real)
    requires w > 0.0
    ensures a / w * w == a && (1.0 - (1.0 - a / w)) * w == a
  {
  }

  /** Multiplied by width and height, and turned over, the area is the rectangle. */
  predicate NormalizedBy(gl: GlArea, r: Rect, w: nat, h: nat) {
    && gl.x1 * w as real == r.x1 as real && gl.x2 * w as real == r.x2 as real
    && (1.0 - gl.y2) * h as real == r.y1 as real && (1.0 - gl.y1) * h as real == r.y2 as real
  }

  lemma GlBack(r: Rect, w: nat, h: nat)
    requires w > 0 && h > 0
    ensures NormalizedBy(GlOf(r, w, h), r, w, h)
  {
    QuotientBack(r.x1 as real, w as real);
    QuotientBack(r.x2 as real, w as real);
    QuotientBack(r.y1 as real, h as real);
    QuotientBack(r.y2 as real, h as real);
  }

  lemma CellParts(p: Params, groups: Option<Groups>, counts: seq<nat>, r: nat, c: nat)
    requires Acceptable(p, groups, false, counts) && r < p.rows && c < p.cols
    ensures 0 <= r * p.cols + c < |Owners(counts)|
    ensures var cell := CellAt(p, groups, counts, r, c);
            && cell.shown == Block(p, r, c) && cell.owner == Owners(counts)[r * p.cols + c] && cell.gl == BlockGl(p, r, c)
            && (groups.Some? ==> cell.position == Some(PositionAt(p, groups.value, r, c)))
  {
    CellIndex(p, r, c);
  }

  /** A block is driven by a screen of a server, counted through the servers' GPUs. */
  lemma CellOwner(p: Params, groups: Option<Groups>, counts: seq<nat>, r: nat, c: nat) returns (o: Owner)
    requires Acceptable(p, groups, false, counts) && r < p.rows && c < p.cols
    ensures o == CellAt(p, groups, counts, r, c).owner && o.server < |counts| && o.screen < counts[o.server]
    ensures Start(counts, o.server) + o.screen == r * p.cols + c
  {
    CellParts(p, groups, counts, r, c);
    o := Owners(counts)[r * p.cols + c];
    OwnerAt(counts, r * p.cols + c);
  }

  /** Its area is normalized by the size of the wall, with the vertical axis turned over. */
  lemma CellGl(p: Params, groups: Option<Groups>, counts: seq<nat>, r: nat, c: nat) returns (cell: Cell)
    requires Acceptable(p, groups, false, counts) && r < p.rows && c < p.cols
    ensures cell == CellAt(p, groups, counts, r, c) && cell.shown == Block(p, r, c)
    ensures NormalizedBy(cell.gl, BlockRect(p, r, c), Length(ColWidths(p)), Length(RowHeights(p)))
  {
    cell := CellAt(p, groups, counts, r, c);
    CellParts(p, groups, counts, r, c);
    WallHasSize(p);
    GlBack(BlockRect(p, r, c), Length(ColWidths(p)), Length(RowHeights(p)));
  }

  lemma CornerAndRest(n: nat, k: nat) returns (corner: nat)
    requires k > 0
    ensures corner == n / k * k && corner <= n && corner + n % k == n
  {
    corner := n / k * k;
  }

  /** In a group a block is positioned as far from the group's first block as on the wall. */
  lemma CellPosition(p: Params, g: Groups, counts: seq<nat>, r: nat, c: nat) returns (r0: nat, c0: nat)
    requires Acceptable(p, Some(g), false, counts) && r < p.rows && c < p.cols
    ensures r0 == r / g.rows * g.rows && c0 == c / g.cols * g.cols && r0 <= r && c0 <= c
    ensures var first, rect := BlockRect(p, r0, c0), BlockRect(p, r, c);
            CellAt(p, Some(g), counts, r, c).position == Some((rect.x1 - first.x1, rect.y1 - first.y1))
  {
    CellParts(p, Some(g), counts, r, c);
    r0 := CornerAndRest(r, g.rows);
    c0 := CornerAndRest(c, g.cols);
    PositionFrom(p, g, r, c, r0, c0);
  }

  lemma PositionFrom(p: Params, g: Groups, r: nat, c: nat, r0: nat, c0: nat)
    requires Valid(p) && Divides(p, g) && r < p.rows && c < p.cols
    requires r0 == r / g.rows * g.rows && c0 == c / g.cols * g.cols && r0 + r % g.rows == r && c0 + c % g.cols == c
    ensures var first, rect := BlockRect(p, r0, c0), BlockRect(p, r, c); PositionAt(p, g, r, c) == (rect.x1 - first.x1, rect.y1 - first.y1)
  {
    OffsetFrom(p, c0, r0, r % g.rows, c % g.cols);
  }

  lemma OffsetFrom(p: Params, x: nat, y: nat, r: nat, c: nat)
    requires Valid(p) && x + c < p.cols && y + r < p.rows
    ensures var first, rect := BlockRect(p, y, x), BlockRect(p, y + r, x + c); Offset(p, x, y, r, c) == (rect.x1 - first.x1, rect.y1 - first.y1)
  {
  }

  /** A combined area is driven by the server of its first block. */
  lemma AreaServer(p: Params, g: Groups, counts: seq<nat>, R: nat, C: nat)
    requires Acceptable(p, Some(g), true, counts) && R < Down(p, g) && C < Across(p, g)
    ensures R * g.rows < p.rows && C * g.cols < p.cols && g.cols * g.rows > 0
    ensures GroupArea(p, g, counts, R, C).server == ServerOf(p, g, R * g.rows, C * g.cols)
  {
    GroupInGrid(p, g, R, C);
    CellServer(p, g, counts, R * g.rows, C * g.cols);
  }

  /** Where groups are one row high or as wide as the wall, that is the server of each block
      of the group. */
  lemma AreaServerIsGroups(p: Params, g: Groups, counts: seq<nat>, R: nat, C: nat, r: nat, c: nat)
    requires Acceptable(p, Some(g), true, counts) && R < Down(p, g) && C < Across(p, g) && (g.rows == 1 || g.cols == p.cols)
    requires r < p.rows && c < p.cols && r / g.rows == R && c / g.cols == C
    ensures GroupArea(p, g, counts, R, C).server == CellAt(p, Some(g), counts, r, c).owner.server
  {
    AreaServer(p, g, counts, R, C);
    CellServer(p, g, counts, r, c);
    var r0, c0 := CornerOf(g, r, c);
    ServerDecides(p, g, r0, c0, r, c);
  }

  lemma CornerOf(g: Groups, r: nat, c: nat) returns (r0: nat, c0: nat)
    requires g.cols > 0 && g.rows > 0
    ensures r0 == r / g.rows * g.rows && c0 == c / g.cols * g.cols && r0 <= r && c0 <= c && SameGroup(g, r0, c0, r, c)
  {
    r0, c0 := r / g.rows * g.rows, c / g.cols * g.cols;
    DivUnique(r / g.rows, g.rows, 0);
    DivUnique(c / g.cols, g.cols, 0);
  }

  /** What a tiled display has to be: a grid of blocks with one display each, or two beside
      or above each other, and one with passive stereo; outputs remapped, if at all, to as
      many different ports; groups that divide the grid; and servers with GPUs, as many
      as there are blocks, and to be combined, as many each as a group has. */
  lemma AcceptableMeans(p: Params, groups: Option<Groups>, combine: bool, counts: seq<nat>)
    ensures Acceptable(p, groups, combine, counts) <==>
              && p.cols >= 1 && p.rows >= 1 && p.tileW >= 1 && p.tileH >= 1
              && p.subCols >= 1 && p.subRows >= 1 && p.subCols + p.subRows <= 3
              && (p.passive ==> p.subCols == 1 && p.subRows == 1 && p.remap.None?)
              && (p.remap.Some? ==> |p.remap.value| == p.subCols * p.subRows && (|p.remap.value| == 2 ==> p.remap.value[0] != p.remap.value[1]))
              && (groups.Some? ==> groups.value.cols >= 1 && groups.value.rows >= 1 && p.cols % groups.value.cols == 0 && p.rows % groups.value.rows == 0)
              && 0 !in counts && |Owners(counts)| == p.cols * p.rows
              && (combine ==> groups.Some? && forall n <- counts :: n == groups.value.cols * groups.value.rows)
  {
    if p.subCols >= 1 && p.subRows >= 1 && p.subCols + p.subRows <= 3 {
      assert (p.subCols == 1 && p.subRows == 1) || (p.subCols == 1 && p.subRows == 2) || (p.subCols == 2 && p.subRows == 1);
      if p.remap.Some? && |p.remap.value| == p.subCols * p.subRows {
        assert (forall i, j | 0 <= i < j < |p.remap.value| :: p.remap.value[i] != p.remap.value[j])
          <==> (|p.remap.value| == 2 ==> p.remap.value[0] != p.remap.value[1]);
      }
    }
    assert 0 !in counts <==> forall s | 0 <= s < |counts| :: counts[s] > 0;
    if groups.Some? { AllAre(counts, groups.value.cols * groups.value.rows); }
  }

  lemma AllAre(counts: seq<nat>, k: nat)
    ensures (forall n <- counts :: n == k) <==> forall s | 0 <= s < |counts| :: counts[s] == k
  {
    forall s | 0 <= s < |counts| ensures counts[s] in counts {}
  }

  // ------------------------------------------- when combined areas are exact

  /** No point of the wall is in the boxes of two groups. */
  ghost predicate BoxesDisjoint(p: Params, g: Groups)
    requires Divides(p, g)
  {
    forall R, C, S, D, x: real, y: real | 0 <= R < Down(p, g) && 0 <= C < Across(p, g) && 0 <= S < Down(p, g) && 0 <= D < Across(p, g) ::
      Inside(BoxAt(p, g, R, C), x, y) && Inside(BoxAt(p, g, S, D), x, y) ==> R == S && C == D
  }

  /** The last group starts within ten million pixels. */
  predicate Near(p: Params, g: Groups)
    requires Valid(p) && Divides(p, g)
  {
    LastBox(p, g);
    GroupInGrid(p, g, Down(p, g) - 1, Across(p, g) - 1);
    var q := GroupRect(p, g, Down(p, g) - 1, Across(p, g) - 1);
    q.x1 <= FAR && q.y1 <= FAR
  }

  lemma NearIsExact(p: Params, g: Groups, R: nat, C: nat)
    requires Valid(p) && Divides(p, g) && Near(p, g) && R < Down(p, g) && C < Across(p, g)
    ensures BoxAt(p, g, R, C) == GroupRect(p, g, R, C)
  {
    GroupInGrid(p, g, R, C);
    GroupInGrid(p, g, Down(p, g) - 1, Across(p, g) - 1);
    MulLe(C, Across(p, g) - 1, g.cols);
    MulLe(R, Down(p, g) - 1, g.rows);
    StartGrows(ColWidths(p), C * g.cols, (Across(p, g) - 1) * g.cols);
    StartGrows(RowHeights(p), R * g.rows, (Down(p, g) - 1) * g.rows);
  }

  lemma GroupReaches(p: Params, g: Groups, R: nat, C: nat)
    requires Valid(p) && Divides(p, g) && R < Down(p, g) && C < Across(p, g)
    ensures var q := GroupRect(p, g, R, C); 0 <= q.x1 && q.x2 <= Length(ColWidths(p)) && 0 <= q.y1 && q.y2 <= Length(RowHeights(p))
  {
    GroupInGrid(p, g, R, C);
    AreaReaches(p, C * g.cols, R * g.rows, g.cols, g.rows);
  }

  lemma AreaReaches(p: Params, x: nat, y: nat, w: nat, h: nat)
    requires InGrid(p, x, y, w, h)
    ensures var q := AreaRect(p, x, y, w, h); 0 <= q.x1 && q.x2 <= Length(ColWidths(p)) && 0 <= q.y1 && q.y2 <= Length(RowHeights(p))
  {
    StartGrows(ColWidths(p), x + w, p.cols);
    StartGrows(RowHeights(p), y + h, p.rows);
  }

  lemma InWall(p: Params, g: Groups, R: nat, C: nat, x: real, y: real)
    requires Valid(p) && Divides(p, g) && R < Down(p, g) && C < Across(p, g) && Inside(GroupRect(p, g, R, C), x, y)
    ensures 0.0 <= x < Length(ColWidths(p)) as real && 0.0 <= y < Length(RowHeights(p)) as real
  {
    GroupReaches(p, g, R, C);
  }

  /** A group's corner. */
  lemma CornerIsInside(p: Params, g: Groups, R: nat, C: nat)
    requires Valid(p) && Divides(p, g) && R < Down(p, g) && C < Across(p, g)
    ensures var q := GroupRect(p, g, R, C); q.x1 < q.x2 && q.y1 < q.y2
  {
    GroupInGrid(p, g, R, C);
    BlockInArea(p, C * g.cols, R * g.rows, g.cols, g.rows, 0, 0);
    BlocksInWall(p, R * g.rows, C * g.cols);
  }

  ghost predicate InSomeBox(p: Params, g: Groups, x: real, y: real)
    requires Divides(p, g)
  {
    exists R, C | 0 <= R < Down(p, g) && 0 <= C < Across(p, g) :: Inside(BoxAt(p, g, R, C), x, y)
  }

  /** The boxes of the groups cover the wall, and they are apart, so that they partition
      it, exactly when the last group starts within ten million pixels. */
  lemma BoxesPartitionExactly(p: Params, g: Groups)
    requires Valid(p) && Divides(p, g)
    ensures forall x: real, y: real | 0.0 <= x < Length(ColWidths(p)) as real && 0.0 <= y < Length(RowHeights(p)) as real ::
              InSomeBox(p, g, x, y)
    ensures BoxesDisjoint(p, g) <==> Near(p, g)
  {
    forall x: real, y: real | 0.0 <= x < Length(ColWidths(p)) as real && 0.0 <= y < Length(RowHeights(p)) as real
      ensures InSomeBox(p, g, x, y)
    {
      var R, C := CoveringBox(p, g, x, y);
    }
    if Near(p, g) { NearBoxesDisjoint(p, g); } else { FarBoxesOverlap(p, g); }
  }

  lemma NearBoxesDisjoint(p: Params, g: Groups)
    requires Valid(p) && Divides(p, g) && Near(p, g)
    ensures BoxesDisjoint(p, g)
  {
    forall R, C, S, D, x: real, y: real | 0 <= R < Down(p, g) && 0 <= C < Across(p, g) && 0 <= S < Down(p, g) && 0 <= D < Across(p, g)
        && Inside(BoxAt(p, g, R, C), x, y) && Inside(BoxAt(p, g, S, D), x, y)
      ensures R == S && C == D
    {
      NearIsExact(p, g, R, C);
      NearIsExact(p, g, S, D);
      InWall(p, g, R, C, x, y);
      GroupsPartitionWall(p, g, x, y);
    }
  }

  lemma FarBoxesOverlap(p: Params, g: Groups)
    requires Valid(p) && Divides(p, g) && !Near(p, g)
    ensures !BoxesDisjoint(p, g)
  {
    var x, y, R, C := FarPoint(p, g);
  }

  /** A box reaches at least as far as its group. */
  lemma CoveringBox(p: Params, g: Groups, x: real, y: real) returns (R: nat, C: nat)
    requires Valid(p) && Divides(p, g)
    requires 0.0 <= x < Length(ColWidths(p)) as real && 0.0 <= y < Length(RowHeights(p)) as real
    ensures R < Down(p, g) && C < Across(p, g) && Inside(BoxAt(p, g, R, C), x, y) && Inside(GroupRect(p, g, R, C), x, y)
  {
    GroupsPartitionWall(p, g, x, y);
    R, C :| R < Down(p, g) && C < Across(p, g) && Inside(GroupRect(p, g, R, C), x, y);
    GroupInGrid(p, g, R, C);
  }

  /** The box of a last group further out reaches back over another group. */
  lemma FarPoint(p: Params, g: Groups) returns (x: real, y: real, R: nat, C: nat)
    requires Valid(p) && Divides(p, g) && !Near(p, g)
    ensures Down(p, g) > 0 && Across(p, g) > 0
    ensures 0.0 <= x < Length(ColWidths(p)) as real && 0.0 <= y < Length(RowHeights(p)) as real
    ensures R < Down(p, g) && C < Across(p, g) && (R, C) != (Down(p, g) - 1, Across(p, g) - 1)
    ensures Inside(BoxAt(p, g, R, C), x, y) && Inside(BoxAt(p, g, Down(p, g) - 1, Across(p, g) - 1), x, y)
  {
    LastBox(p, g);
    var S, D := Down(p, g) - 1, Across(p, g) - 1;
    GroupInGrid(p, g, S, D);
    CornerIsInside(p, g, S, D);
    var q := GroupRect(p, g, S, D);
    x, y := Min(q.x1, FAR) as real, Min(q.y1, FAR) as real;
    assert Inside(BoxAt(p, g, S, D), x, y);
    assert !Inside(q, x, y);
    R, C := CoveringBox(p, g, x, y);
  }

  /** The normalized area of a group, as it is set. */
  function GroupGl(p: Params, g: Groups, R: nat, C: nat): GlArea
    requires Valid(p) && Divides(p, g) && R < Down(p, g) && C < Across(p, g)
  {
    WallHasSize(p);
    GlOf(BoxAt(p, g, R, C), Length(ColWidths(p)), Length(RowHeights(p)))
  }

  lemma GroupGlIsSet(p: Params, g: Groups, counts: seq<nat>, R: nat, C: nat)
    requires Acceptable(p, Some(g), true, counts) && R < Down(p, g) && C < Across(p, g)
    ensures GroupArea(p, g, counts, R, C).gl == GroupGl(p, g, R, C)
  {
  }

  /** No point of the unit square is in the areas of two groups. */
  ghost predicate GroupGlDisjoint(p: Params, g: Groups)
    requires Valid(p) && Divides(p, g)
  {
    forall R, C, S, D, u: real, v: real | 0 <= R < Down(p, g) && 0 <= C < Across(p, g) && 0 <= S < Down(p, g) && 0 <= D < Across(p, g)
        && 0.0 <= u < 1.0 && 0.0 < v <= 1.0 ::
      InsideGl(GroupGl(p, g, R, C), u, v) && InsideGl(GroupGl(p, g, S, D), u, v) ==> R == S && C == D
  }

  ghost predicate InSomeGl(p: Params, g: Groups, u: real, v: real)
    requires Valid(p) && Divides(p, g)
  {
    exists R, C | 0 <= R < Down(p, g) && 0 <= C < Across(p, g) :: InsideGl(GroupGl(p, g, R, C), u, v)
  }

  lemma GroupGlCovers(p: Params, g: Groups, u: real, v: real)
    requires Valid(p) && Divides(p, g) && 0.0 <= u < 1.0 && 0.0 < v <= 1.0
    ensures InSomeGl(p, g, u, v)
  {
    WallHasSize(p);
    var x, y := ScaledPoint(Length(ColWidths(p)), Length(RowHeights(p)), u, v);
    var R, C := CoveringBox(p, g, x, y);
    assert InsideGl(GroupGl(p, g, R, C), u, v);
  }

  /** The normalized areas of the groups cover the unit square, and they partition it
      exactly when the last group starts within ten million pixels. */
  lemma GroupGlPartitionExactly(p: Params, g: Groups)
    requires Valid(p) && Divides(p, g)
    ensures forall u: real, v: real | 0.0 <= u < 1.0 && 0.0 < v <= 1.0 :: InSomeGl(p, g, u, v)
    ensures GroupGlDisjoint(p, g) <==> Near(p, g)
  {
    forall u: real, v: real | 0.0 <= u < 1.0 && 0.0 < v <= 1.0 ensures InSomeGl(p, g, u, v) { GroupGlCovers(p, g, u, v); }
    if Near(p, g) { NearGlDisjoint(p, g); } else { FarGlOverlap(p, g); }
  }

  lemma NearGlDisjoint(p: Params, g: Groups)
    requires Valid(p) && Divides(p, g) && Near(p, g)
    ensures GroupGlDisjoint(p, g)
  {
    WallHasSize(p);
    NearBoxesDisjoint(p, g);
    forall R, C, S, D, u: real, v: real | 0 <= R < Down(p, g) && 0 <= C < Across(p, g) && 0 <= S < Down(p, g) && 0 <= D < Across(p, g)
        && 0.0 <= u < 1.0 && 0.0 < v <= 1.0 && InsideGl(GroupGl(p, g, R, C), u, v) && InsideGl(GroupGl(p, g, S, D), u, v)
      ensures R == S && C == D
    {
      var x, y := ScaledPoint(Length(ColWidths(p)), Length(RowHeights(p)), u, v);
      assert Inside(BoxAt(p, g, R, C), x, y) && Inside(BoxAt(p, g, S, D), x, y);
    }
  }

  /** The point of the unit square a point of the wall is normalized to. */
  lemma NormalizedPoint(w: nat, h: nat, x: real, y: real) returns (u: real, v: real)
    requires w > 0 && h > 0 && 0.0 <= x < w as real && 0.0 <= y < h as real
    ensures 0.0 <= u < 1.0 && 0.0 < v <= 1.0
    ensures forall r: Rect :: InsideGl(GlOf(r, w, h), u, v) <==> Inside(r, x, y)
  {
    u, v := x / w as real, 1.0 - y / h as real;
    QuotientLe(x, w as real, 1.0);
    QuotientLe(0.0, w as real, u);
    QuotientLe(y, h as real, 1.0);
    QuotientLe(0.0, h as real, y / h as real);
    assert u * w as real == x && (1.0 - v) * h as real == y;
    forall r: Rect
      ensures InsideGl(GlOf(r, w, h), u, v) <==> Inside(r, x, y)
    {
      GlScales(r, w, h, u, v);
    }
  }

  lemma FarGlOverlap(p: Params, g: Groups)
    requires Valid(p) && Divides(p, g) && !Near(p, g)
    ensures !GroupGlDisjoint(p, g)
  {
    WallHasSize(p);
    var x, y, R, C := FarPoint(p, g);
    var u, v := NormalizedPoint(Length(ColWidths(p)), Length(RowHeights(p)), x, y);
    assert InsideGl(GroupGl(p, g, R, C), u, v) && InsideGl(GroupGl(p, g, Down(p, g) - 1, Across(p, g) - 1), u, v);
  }

  // ---------------------------------------------------- a wall that is too wide

  /** Two displays without bezels side by side, each a group of its own. */
  function WidePair(w: nat): Params { Params(2, 1, 1, 1, w, 1, Bezel(0, 0, 0, 0), All, NoRotation, false, None) }

  lemma WidePairStarts(w: nat)
    requires w > 0
    ensures Valid(WidePair(w)) && Divides(WidePair(w), Groups(1, 1))
    ensures Across(WidePair(w), Groups(1, 1)) == 2 && Down(WidePair(w), Groups(1, 1)) == 1
    ensures ColWidth(WidePair(w), 0) == w
  {
    var p := WidePair(w);
    var a := XAxis(p, 0, 0);
    assert Extents(a, p) == [Extent(a, p, 0)] && Extents(a, p)[..0] == [];
    assert Start(Extents(a, p), 1) == Start(Extents(a, p), 0) + Extent(a, p, 0);
  }

  /** Displays wider than ten million pixels: the boxes of the two groups overlap. */
  lemma WideBoxesOverlap(w: nat)
    requires w > 10_000_000
    ensures Valid(WidePair(w)) && Divides(WidePair(w), Groups(1, 1)) && !BoxesDisjoint(WidePair(w), Groups(1, 1))
  {
    var p, g := WidePair(w), Groups(1, 1);
    WidePairStarts(w);
    GroupInGrid(p, g, 0, 1);
    LastBox(p, g);
    assert Start(ColWidths(p), 1) == Start(ColWidths(p), 0) + ColWidths(p)[0];
    assert GroupRect(p, g, 0, 1).x1 == Start(ColWidths(p), 1) == w;
    FarBoxesOverlap(p, g);
  }

  class TiledDisplay {
    const p: Params
    const groups: Option<Groups>
    const combine: bool
    var actual: seq<seq<Cell>>
    var effective: seq<seq<Area>>

    constructor (p: Params, groups: Option<Groups>, combine: bool)
      ensures this.p == p && this.groups == groups && this.combine == combine
    {
      this.p, this.groups, this.combine := p, groups, combine;
      actual, effective := [], [];
    }

    /** Lay out the wall over servers with these numbers of GPUs. The matrices say what
        each block is, and what applications see; they differ if blocks are combined. */
    method SetupXServers(counts: seq<nat>) returns (ok: bool)
      modifies this
      ensures ok == Acceptable(p, groups, combine, counts)
      ensures !ok ==> actual == old(actual) && effective == old(effective)
      ensures ok ==> CellsOf(p, groups, counts, actual)
      ensures ok && combine ==> GroupAreasOf(p, groups.value, counts, effective)
      ensures ok && !combine ==> |effective| == |actual| && forall r | 0 <= r < |actual| ::
                |effective[r]| == |actual[r]| && forall c | 0 <= c < |actual[r]| :: effective[r][c] == Area(actual[r][c].shown.rect, actual[r][c].owner.server, actual[r][c].gl)
    {
      if !Acceptable(p, groups, combine, counts) { return false; }
      var owners := AssignServers(counts);
      var blocks := PlaceBlocks(p);
      var cells := MakeCells(p, groups, counts, owners, blocks);
      actual := cells;
      if combine {
        effective := CombineBlocks(p, groups.value, counts, owners, blocks);
      } else {
        effective := seq(|cells|, r requires 0 <= r < |cells| => seq(|cells[r]|, c requires 0 <= c < |cells[r]| => Area(cells[r][c].shown.rect, cells[r][c].owner.server, cells[r][c].gl)));
      }
      ok := true;
    }
  }
}
