/** The geometry of a tiled display: how large the framebuffer of each GPU gets, where
    its outputs scan out from, and which rectangle of the whole display it shows. */
module Layout {
  import opened Resources
  import opened Spans

  datatype Edge = Left | Right | Top | Bottom

  /** Bezel widths of a display, in pixels. */
  datatype Bezel = Bezel(left: nat, right: nat, top: nat, bottom: nat) {
    function At(e: Edge): nat {
      match e case Left => left case Right => right case Top => top case Bottom => bottom
    }
  }

  datatype Rotation = NoRotation | Portrait | InvertedPortrait | InvertedLandscape

  /** All bezels count, none, or those between the displays of a desktop. */
  datatype BezelMode = All | Disable | Desktop

  /** cols by rows blocks, each a GPU that drives subCols by subRows displays. */
  datatype Params = Params(cols: nat, rows: nat, subCols: nat, subRows: nat, tileW: nat, tileH: nat, bezel: Bezel,
                           bezels: BezelMode, rotate: Rotation, passive: bool, remap: Option<seq<nat>>)

  /** What a tiled display of GPU blocks is checked for. Passive stereo drives two
      outputs of a GPU with one display, and the remapping is checked against both. */
  predicate Valid(p: Params) {
    && p.cols > 0 && p.rows > 0 && p.tileW > 0 && p.tileH > 0
    && (p.subCols, p.subRows) in {(1, 1), (1, 2), (2, 1)}
    && (p.passive ==> (p.subCols, p.subRows) == (1, 1))
    && (p.remap.Some? ==>
          && (p.passive ==> |p.remap.value| == 2)
          && |p.remap.value| == p.subCols * p.subRows
          && forall i, j | 0 <= i < j < |p.remap.value| :: p.remap.value[i] != p.remap.value[j])
  }

  /** With passive stereo no remapping of outputs passes: one check wants two ports, the
      other as many as there are displays, that is one. */
  lemma PassiveCannotRemap(p: Params)
    requires p.passive && Valid(p)
    ensures p.remap.None?
  {
  }

  // ------------------------------------------------------------------ edges

  predicate Rotated(p: Params) { p.rotate.Portrait? || p.rotate.InvertedPortrait? }

  function LeftEdge(r: Rotation): Edge {
    match r case NoRotation => Left case Portrait => Top case InvertedPortrait => Bottom case InvertedLandscape => Right
  }

  function RightEdge(r: Rotation): Edge {
    match r case NoRotation => Right case Portrait => Bottom case InvertedPortrait => Top case InvertedLandscape => Left
  }

  function TopEdge(r: Rotation): Edge {
    match r case NoRotation => Top case Portrait => Right case InvertedPortrait => Left case InvertedLandscape => Bottom
  }

  function BottomEdge(r: Rotation): Edge {
    match r case NoRotation => Bottom case Portrait => Left case InvertedPortrait => Right case InvertedLandscape => Top
  }

  function UsedBezel(p: Params): Bezel { if p.bezels.Disable? then Bezel(0, 0, 0, 0) else p.bezel }

  // ------------------------------------------------------------------- axes

  /** The displays of a block along one direction of its framebuffer. low and high are
      the bezel sides of that direction; before and after are the sides that lie at the
      start and the end of the wall's direction. */
  datatype Axis = Axis(n: nat, tile: nat, low: Edge, high: Edge, before: Edge, after: Edge, atStart: bool, atEnd: bool, lastSub: int)

  /** Along the width of the framebuffer. On a rotated wall this runs with the rows;
      the code then still takes the last sub-row for the last display. */
  function XAxis(p: Params, row: nat, col: nat): Axis {
    if Rotated(p) then
      Axis(p.subCols, p.tileW, Left, Right, TopEdge(p.rotate), BottomEdge(p.rotate), row == 0, row == p.rows - 1, p.subRows - 1)
    else
      Axis(p.subCols, p.tileW, Left, Right, LeftEdge(p.rotate), RightEdge(p.rotate), col == 0, col == p.cols - 1, p.subCols - 1)
  }

  /** Along the height of the framebuffer. */
  function YAxis(p: Params, row: nat, col: nat): Axis {
    if Rotated(p) then
      Axis(p.subRows, p.tileH, Top, Bottom, LeftEdge(p.rotate), RightEdge(p.rotate), col == 0, col == p.cols - 1, p.subCols - 1)
    else
      Axis(p.subRows, p.tileH, Top, Bottom, TopEdge(p.rotate), BottomEdge(p.rotate), row == 0, row == p.rows - 1, p.subRows - 1)
  }

  predicate Sides(a: Axis) {
    a.low != a.high && ((a.before == a.low && a.after == a.high) || (a.before == a.high && a.after == a.low))
  }

  lemma AxesHaveSides(p: Params, row: nat, col: nat)
    ensures Sides(XAxis(p, row, col)) && Sides(YAxis(p, row, col))
  {
  }

  /** Outer bezels count only in mode All. */
  predicate Before(a: Axis, p: Params, s: nat) { !(a.atStart && s == 0) || p.bezels.All? }
  predicate After(a: Axis, p: Params, s: nat) { !(a.atEnd && s == a.lastSub) || p.bezels.All? }

  predicate Counts(a: Axis, p: Params, s: nat, e: Edge) {
    (e == a.before && Before(a, p, s)) || (e == a.after && After(a, p, s))
  }

  /** The bezels in front of display s, and all it takes up. A desktop has both bezels
      in front. */
  function Lead(a: Axis, p: Params, s: nat): nat {
    if Counts(a, p, s, a.low) then UsedBezel(p).At(a.low) + (if p.bezels.Desktop? then UsedBezel(p).At(a.high) else 0) else 0
  }

  function Extent(a: Axis, p: Params, s: nat): nat {
    Lead(a, p, s) + (if Counts(a, p, s, a.high) && !p.bezels.Desktop? then UsedBezel(p).At(a.high) else 0) + a.tile
  }

  function Extents(a: Axis, p: Params): seq<nat> { seq(a.n, s requires 0 <= s < a.n => Extent(a, p, s)) }

  function Size(a: Axis, p: Params): nat { Length(Extents(a, p)) }

  function Origins(a: Axis, p: Params): seq<nat> {
    seq(a.n, s requires 0 <= s < a.n => Start(Extents(a, p), s) + Lead(a, p, s))
  }

  /** Displays lie inside the framebuffer, one after another, without overlap. */
  lemma DisplaysApart(a: Axis, p: Params, s: nat)
    requires s < a.n
    ensures Origins(a, p)[s] + a.tile <= Size(a, p)
    ensures forall t | s < t < a.n :: Origins(a, p)[s] + a.tile <= Origins(a, p)[t]
  {
    var es := Extents(a, p);
    StartGrows(es, s, a.n);
    forall t | s < t < a.n ensures Origins(a, p)[s] + a.tile <= Origins(a, p)[t] { StartGrows(es, s, t); }
  }

  /** Add up the bezels of one display: on the sides listed, in that order. */
  method AddBezels(a: Axis, p: Params, s: nat, sides: seq<Edge>, start: nat) returns (size: nat, origin: nat)
    requires Sides(a) && forall e :: e in sides <==> Counts(a, p, s, e)
    requires |sides| <= 2 && (|sides| == 2 ==> sides[0] != sides[1])
    ensures origin == start + Lead(a, p, s) && size + a.tile == start + Extent(a, p, s)
  {
    var bezel := UsedBezel(p);
    size, origin := start, start;
    for i := 0 to |sides|
      invariant origin == start + if a.low in sides[..i] then Lead(a, p, s) else 0
      invariant size == origin + if a.high in sides[..i] && !p.bezels.Desktop? then bezel.At(a.high) else 0
    {
      assert sides[..i + 1] == sides[..i] + [sides[i]];
      if sides[i] == a.low {
        size, origin := size + bezel.At(a.low), origin + bezel.At(a.low);
        if p.bezels.Desktop? { size, origin := size + bezel.At(a.high), origin + bezel.At(a.high); }
      }
      if sides[i] == a.high && !p.bezels.Desktop? { size := size + bezel.At(a.high); }
    }
    assert sides[..|sides|] == sides;
  }

  /** Walk along an axis, adding up bezels and displays. */
  method WalkAxis(a: Axis, p: Params) returns (size: nat, origins: seq<nat>)
    requires Sides(a)
    ensures size == Size(a, p) && origins == Origins(a, p)
  {
    size, origins := 0, [];
    for s := 0 to a.n
      invariant size == Start(Extents(a, p), s) && |origins| == s
      invariant forall i | 0 <= i < s :: origins[i] == Origins(a, p)[i]
    {
      var sides: seq<Edge> := [];
      if !(a.atStart && s == 0) || p.bezels.All? { sides := sides + [a.before]; }
      if !(a.atEnd && s == a.lastSub) || p.bezels.All? { sides := sides + [a.after]; }
      var origin;
      size, origin := AddBezels(a, p, s, sides, size);
      origins := origins + [origin];
      size := size + a.tile;
    }
  }

  // ----------------------------------------------------------------- blocks

  datatype Rect = Rect(x1: nat, y1: nat, x2: nat, y2: nat)

  /** A display output of a GPU, and where in the framebuffer it scans out from. */
  datatype Scanout = Scanout(port: nat, x: nat, y: nat)

  /** What a block shows: its rectangle of the wall, the size of its framebuffer, and
      its outputs. */
  datatype Shown = Shown(rect: Rect, width: nat, height: nat, scanouts: seq<Scanout>)

  function Port(p: Params, k: nat): nat {
    if p.remap.Some? && k < |p.remap.value| then p.remap.value[k] else k
  }

  function FbWidth(p: Params, row: nat, col: nat): nat { Size(XAxis(p, row, col), p) }
  function FbHeight(p: Params, row: nat, col: nat): nat { Size(YAxis(p, row, col), p) }

  /** The outputs of a block: one a display, row by row; passive stereo has a second
      one for the other eye. */
  function Scanouts(p: Params, row: nat, col: nat): seq<Scanout>
    requires Valid(p)
  {
    var xs, ys := Origins(XAxis(p, row, col), p), Origins(YAxis(p, row, col), p);
    if p.passive then [Scanout(0, xs[0], ys[0]), Scanout(1, xs[0], ys[0])]
    else if p.subCols == 2 then [Scanout(Port(p, 0), xs[0], ys[0]), Scanout(Port(p, 1), xs[1], ys[0])]
    else if p.subRows == 2 then [Scanout(Port(p, 0), xs[0], ys[0]), Scanout(Port(p, 1), xs[0], ys[1])]
    else [Scanout(Port(p, 0), xs[0], ys[0])]
  }

  /** How wide column c of the wall is, and how high row r: the same in every row, and
      in every column. */
  function ColWidth(p: Params, c: nat): nat { if Rotated(p) then FbHeight(p, 0, c) else FbWidth(p, 0, c) }
  function RowHeight(p: Params, r: nat): nat { if Rotated(p) then FbWidth(p, r, 0) else FbHeight(p, r, 0) }

  function ColWidths(p: Params): seq<nat> { seq(p.cols, c requires 0 <= c < p.cols => ColWidth(p, c)) }
  function RowHeights(p: Params): seq<nat> { seq(p.rows, r requires 0 <= r < p.rows => RowHeight(p, r)) }

  lemma WidthByColumn(p: Params, row: nat, col: nat)
    ensures (if Rotated(p) then FbHeight(p, row, col) else FbWidth(p, row, col)) == ColWidth(p, col)
    ensures (if Rotated(p) then FbWidth(p, row, col) else FbHeight(p, row, col)) == RowHeight(p, row)
  {
  }

  function BlockRect(p: Params, row: nat, col: nat): Rect
    requires row < p.rows && col < p.cols
  {
    Rect(Start(ColWidths(p), col), Start(RowHeights(p), row), Start(ColWidths(p), col + 1), Start(RowHeights(p), row + 1))
  }

  function Block(p: Params, row: nat, col: nat): Shown
    requires Valid(p) && row < p.rows && col < p.cols
  {
    Shown(BlockRect(p, row, col), FbWidth(p, row, col), FbHeight(p, row, col), Scanouts(p, row, col))
  }

  /** Set up the outputs of one GPU. */
  method SetScanouts(p: Params, xs: seq<nat>, ys: seq<nat>) returns (scanouts: seq<Scanout>)
    requires Valid(p) && |xs| == p.subCols && |ys| == p.subRows
    ensures scanouts ==
      if p.passive then [Scanout(0, xs[0], ys[0]), Scanout(1, xs[0], ys[0])]
      else if p.subCols == 2 then [Scanout(Port(p, 0), xs[0], ys[0]), Scanout(Port(p, 1), xs[1], ys[0])]
      else if p.subRows == 2 then [Scanout(Port(p, 0), xs[0], ys[0]), Scanout(Port(p, 1), xs[0], ys[1])]
      else [Scanout(Port(p, 0), xs[0], ys[0])]
  {
    var outputs := if p.remap.Some? then p.remap.value else if p.passive then [0, 1] else seq(p.subCols * p.subRows, i => i);
    scanouts := [];
    for r := 0 to p.subRows
      invariant |scanouts| == r * p.subCols
      invariant r > 0 && p.subCols == 1 ==> scanouts[0] == Scanout(outputs[0], xs[0], ys[0])
      invariant r > 1 ==> scanouts[1] == Scanout(outputs[1], xs[0], ys[1])
      invariant r > 0 && p.subCols == 2 ==> scanouts == [Scanout(outputs[0], xs[0], ys[0]), Scanout(outputs[1], xs[1], ys[0])]
    {
      for c := 0 to p.subCols
        invariant |scanouts| == r * p.subCols + c
        invariant (r > 0 || c > 0) && p.subCols == 1 ==> scanouts[0] == Scanout(outputs[0], xs[0], ys[0])
        invariant (r > 1 || (r == 1 && c > 0)) ==> scanouts[1] == Scanout(outputs[1], xs[0], ys[1])
        invariant r == 0 && c > 0 ==> scanouts[0] == Scanout(outputs[0], xs[0], ys[0])
        invariant r == 0 && c == 2 ==> scanouts == [Scanout(outputs[0], xs[0], ys[0]), Scanout(outputs[1], xs[1], ys[0])]
      {
        scanouts := scanouts + [Scanout(outputs[|scanouts|], xs[c], ys[r])];
      }
    }
    if p.passive {
      scanouts := scanouts + [Scanout(outputs[1], xs[p.subCols - 1], ys[p.subRows - 1])];
    }
  }

  /** A block ends where its own size takes it. */
  lemma RectFromCorner(p: Params, row: nat, col: nat)
    requires row < p.rows && col < p.cols
    ensures var b := BlockRect(p, row, col);
            b == Rect(b.x1, b.y1, b.x1 + ColWidth(p, col), b.y1 + RowHeight(p, row))
  {
    assert ColWidths(p)[col] == ColWidth(p, col) && RowHeights(p)[row] == RowHeight(p, row);
  }

  lemma StartNext(p: Params, row: nat, col: nat)
    requires row < p.rows && col < p.cols
    ensures Start(ColWidths(p), col + 1) == Start(ColWidths(p), col) + ColWidth(p, col)
  {
    assert ColWidths(p)[col] == ColWidth(p, col);
  }

  lemma BlockFromCorner(p: Params, row: nat, col: nat, shown: Shown)
    requires Valid(p) && row < p.rows && col < p.cols
    requires shown.width == FbWidth(p, row, col) && shown.height == FbHeight(p, row, col) && shown.scanouts == Scanouts(p, row, col)
    requires var x, y := Start(ColWidths(p), col), Start(RowHeights(p), row);
             shown.rect == if Rotated(p) then Rect(x, y, x + shown.height, y + shown.width) else Rect(x, y, x + shown.width, y + shown.height)
    ensures shown == Block(p, row, col)
  {
    WidthByColumn(p, row, col);
    RectFromCorner(p, row, col);
  }

  /** Set up a block at a place of the wall: the size of its framebuffer, its outputs,
      and how far it reaches to the right and down. */
  method SetUpBlock(p: Params, row: nat, col: nat, curX: nat, curY: nat) returns (shown: Shown, w: nat, h: nat)
    requires Valid(p) && row < p.rows && col < p.cols
    requires curX == Start(ColWidths(p), col) && curY == Start(RowHeights(p), row)
    ensures shown == Block(p, row, col) && w == ColWidth(p, col) && h == RowHeight(p, row)
  {
    AxesHaveSides(p, row, col);
    WidthByColumn(p, row, col);
    var fbWidth, xs := WalkAxis(XAxis(p, row, col), p);
    var fbHeight, ys := WalkAxis(YAxis(p, row, col), p);
    var scanouts := SetScanouts(p, xs, ys);
    w, h := if Rotated(p) then fbHeight else fbWidth, if Rotated(p) then fbWidth else fbHeight;
    shown := Shown(Rect(curX, curY, curX + w, curY + h), fbWidth, fbHeight, scanouts);
    BlockFromCorner(p, row, col, shown);
  }

  /** The first n blocks of a row. */
  ghost predicate RowOf(p: Params, row: nat, n: nat, line: seq<Shown>)
    requires Valid(p) && row < p.rows && n <= p.cols
  {
    |line| == n && forall c | 0 <= c < n :: line[c] == Block(p, row, c)
  }

  /** Place the blocks of a row one after another; the row gets the height of its last
      block. */
  method PlaceRow(p: Params, row: nat, curY: nat) returns (line: seq<Shown>, height: nat)
    requires Valid(p) && row < p.rows && curY == Start(RowHeights(p), row)
    ensures RowOf(p, row, p.cols, line) && height == RowHeight(p, row)
  {
    line, height := [], 0;
    var curX := 0;
    for col := 0 to p.cols
      invariant curX == Start(ColWidths(p), col) && (col > 0 ==> height == RowHeight(p, row))
      invariant RowOf(p, row, col, line)
    {
      var shown, w, h := SetUpBlock(p, row, col, curX, curY);
      StartNext(p, row, col);
      line := line + [shown];
      curX, height := curX + w, h;
    }
  }

  /** The blocks of the wall, row by row. */
  ghost predicate Placed(p: Params, blocks: seq<seq<Shown>>)
    requires Valid(p)
  {
    |blocks| == p.rows && forall r | 0 <= r < p.rows :: |blocks[r]| == p.cols && forall c | 0 <= c < p.cols :: blocks[r][c] == Block(p, r, c)
  }

  /** Walk the wall row by row, placing each block where the one before it ends. */
  method PlaceBlocks(p: Params) returns (blocks: seq<seq<Shown>>)
    requires Valid(p)
    ensures Placed(p, blocks)
  {
    blocks := [];
    var curY := 0;
    for row := 0 to p.rows
      invariant curY == Start(RowHeights(p), row) && |blocks| == row
      invariant forall r | 0 <= r < row :: |blocks[r]| == p.cols && forall c | 0 <= c < p.cols :: blocks[r][c] == Block(p, r, c)
    {
      var line, height := PlaceRow(p, row, curY);
      blocks := blocks + [line];
      curY := curY + height;
    }
  }

  // ------------------------------------------------------------ the theorems

  ghost predicate Inside(r: Rect, x: real, y: real) { r.x1 as real <= x < r.x2 as real && r.y1 as real <= y < r.y2 as real }

  /** The blocks partition the wall: for every grid, bezel mode and rotation each point
      of the whole rectangle lies in exactly one block. */
  lemma BlocksPartitionWall(p: Params, x: real, y: real)
    requires Valid(p) && 0.0 <= x < Length(ColWidths(p)) as real && 0.0 <= y < Length(RowHeights(p)) as real
    ensures exists r, c | 0 <= r < p.rows && 0 <= c < p.cols :: Inside(BlockRect(p, r, c), x, y)
    ensures forall r, c, s, d | 0 <= r < p.rows && 0 <= c < p.cols && 0 <= s < p.rows && 0 <= d < p.cols ::
              Inside(BlockRect(p, r, c), x, y) && Inside(BlockRect(p, s, d), x, y) ==> r == s && c == d
  {
    var ws, hs := ColWidths(p), RowHeights(p);
    var c := Locate(ws, p.cols, x);
    var r := Locate(hs, p.rows, y);
    assert Inside(BlockRect(p, r, c), x, y);
    forall r, c, s, d | 0 <= r < p.rows && 0 <= c < p.cols && 0 <= s < p.rows && 0 <= d < p.cols
                        && Inside(BlockRect(p, r, c), x, y) && Inside(BlockRect(p, s, d), x, y)
      ensures r == s && c == d
    {
      InOneOnly(ws, c, d, x);
      InOneOnly(hs, r, s, y);
    }
  }

  lemma SizeIsPositive(a: Axis, p: Params)
    requires a.n > 0 && a.tile > 0
    ensures Size(a, p) > 0
  {
    DisplaysApart(a, p, 0);
  }

  lemma WallIsPositive(p: Params, r: nat, c: nat)
    requires Valid(p)
    ensures ColWidth(p, c) > 0 && RowHeight(p, r) > 0
  {
    SizeIsPositive(XAxis(p, 0, c), p);
    SizeIsPositive(YAxis(p, 0, c), p);
    SizeIsPositive(XAxis(p, r, 0), p);
    SizeIsPositive(YAxis(p, r, 0), p);
  }

  /** No block is empty, and none sticks out of the wall. */
  lemma BlocksInWall(p: Params, r: nat, c: nat)
    requires Valid(p) && r < p.rows && c < p.cols
    ensures var b := BlockRect(p, r, c);
            b.x1 < b.x2 <= Length(ColWidths(p)) && b.y1 < b.y2 <= Length(RowHeights(p))
  {
    StartGrows(ColWidths(p), c + 1, p.cols);
    StartGrows(RowHeights(p), r + 1, p.rows);
    WallIsPositive(p, r, c);
    RectFromCorner(p, r, c);
  }

  /** A block's rectangle of the wall has the size of its framebuffer, turned if the
      displays are. */
  lemma BlockFitsFramebuffer(p: Params, r: nat, c: nat)
    requires Valid(p) && r < p.rows && c < p.cols
    ensures var b, shown := BlockRect(p, r, c), Block(p, r, c);
            (b.x2 - b.x1, b.y2 - b.y1) == if Rotated(p) then (shown.height, shown.width) else (shown.width, shown.height)
  {
    WidthByColumn(p, r, c);
  }

  predicate Apart(p: Params, s: Scanout, t: Scanout) {
    s.x + p.tileW <= t.x || t.x + p.tileW <= s.x || s.y + p.tileH <= t.y || t.y + p.tileH <= s.y
  }

  /** The outputs of a GPU use different ports and lie inside its framebuffer. They do
      not overlap, except that the two outputs of passive stereo show the same area. */
  lemma OutputsFitFramebuffer(p: Params, r: nat, c: nat)
    requires Valid(p) && r < p.rows && c < p.cols
    ensures var shown := Block(p, r, c);
            && (forall s <- shown.scanouts :: s.x + p.tileW <= shown.width && s.y + p.tileH <= shown.height)
            && (forall i, j | 0 <= i < j < |shown.scanouts| :: shown.scanouts[i].port != shown.scanouts[j].port)
            && (!p.passive ==> forall i, j | 0 <= i < j < |shown.scanouts| :: Apart(p, shown.scanouts[i], shown.scanouts[j]))
            && (p.passive ==> |shown.scanouts| == 2)
            && (p.passive ==> (shown.scanouts[0].x, shown.scanouts[0].y) == (shown.scanouts[1].x, shown.scanouts[1].y))
  {
    var xa, ya := XAxis(p, r, c), YAxis(p, r, c);
    DisplaysApart(xa, p, 0);
    DisplaysApart(ya, p, 0);
    if p.subCols == 2 { DisplaysApart(xa, p, 1); }
    if p.subRows == 2 { DisplaysApart(ya, p, 1); }
  }
}
