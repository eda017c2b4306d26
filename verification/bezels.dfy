/** Sizes and positions of a tiled display in terms of its displays and bezels: what each
    bezel mode and each rotation comes to. */
module Bezels {
  import opened Resources
  import opened Spans
  import opened Layout

  /** Widths that are all alike but one. */
  ghost predicate AllBut(es: seq<nat>, full: nat, skip: Option<nat>, less: nat) {
    less <= full && forall i | 0 <= i < |es| :: es[i] == if skip == Some(i) then full - less else full
  }

  function Missing(skip: Option<nat>, n: nat, less: nat): nat { if skip.Some? && skip.value < n then less else 0 }

  lemma {:induction false} StartAllBut(es: seq<nat>, full: nat, skip: Option<nat>, less: nat, n: nat)
    requires AllBut(es, full, skip, less) && n <= |es|
    ensures Start(es, n) + Missing(skip, n, less) == n * full
  {
    if n > 0 {
      StartAllBut(es, full, skip, less, n - 1);
      assert n * full == (n - 1) * full + full;
    }
  }

  // -------------------------------------------------------------- one block

  /** On a desktop, the display of a framebuffer without bezels in front: of the row of
      displays that lies at the edge of the wall where the framebuffer starts, the
      outermost. On rotated walls the code mixes up rows and columns of displays here. */
  function BareX(p: Params, row: nat, col: nat): Option<nat>
    requires Valid(p)
  {
    match p.rotate
    case NoRotation => if col == 0 then Some(0) else None
    case InvertedLandscape => if col == p.cols - 1 then Some(p.subCols - 1) else None
    case Portrait => if row == p.rows - 1 then Some(p.subRows - 1) else None
    case InvertedPortrait => if row == 0 then Some(0) else None
  }

  function BareY(p: Params, row: nat, col: nat): Option<nat>
    requires Valid(p)
  {
    match p.rotate
    case NoRotation => if row == 0 then Some(0) else None
    case InvertedLandscape => if row == p.rows - 1 then Some(p.subRows - 1) else None
    case Portrait => if col == 0 then Some(0) else None
    case InvertedPortrait => if col == p.cols - 1 then Some(p.subCols - 1) else None
  }

  /** What a display takes up with its bezels, and where it starts, by itself. */
  function Pitch(p: Params, tile: nat, low: nat, high: nat): nat { if p.bezels.Disable? then tile else tile + low + high }

  /** The size of n displays in a row. */
  function RowSize(p: Params, n: nat, tile: nat, low: nat, high: nat, bare: Option<nat>): int {
    n * Pitch(p, tile, low, high) - if p.bezels.Desktop? then Missing(bare, n, low + high) else 0
  }

  /** Where display s of the row scans out from. */
  function RowOrigin(p: Params, s: nat, tile: nat, low: nat, high: nat, bare: Option<nat>): int {
    match p.bezels
    case All => s * (tile + low + high) + low
    case Disable => s * tile
    case Desktop => (s + 1) * (tile + low + high) - Missing(bare, s + 1, low + high) - tile
  }

  /** An axis with these bezels, of which at most one display has none in front. */
  ghost predicate AxisIs(a: Axis, p: Params, low: nat, high: nat, bare: Option<nat>) {
    && Sides(a) && a.low != a.high && p.bezel.At(a.low) == low && p.bezel.At(a.high) == high
    && forall s | 0 <= s < a.n :: bare == Some(s) <==> if a.low == a.before then a.atStart && s == 0 else a.atEnd && s == a.lastSub
  }

  lemma AxesAre(p: Params, row: nat, col: nat)
    requires Valid(p) && row < p.rows && col < p.cols
    ensures AxisIs(XAxis(p, row, col), p, p.bezel.left, p.bezel.right, BareX(p, row, col))
    ensures AxisIs(YAxis(p, row, col), p, p.bezel.top, p.bezel.bottom, BareY(p, row, col))
  {
    XAxisIs(p, row, col);
    YAxisIs(p, row, col);
  }

  lemma XAxisIs(p: Params, row: nat, col: nat)
    requires Valid(p) && row < p.rows && col < p.cols
    ensures AxisIs(XAxis(p, row, col), p, p.bezel.left, p.bezel.right, BareX(p, row, col))
  {
    AxesHaveSides(p, row, col);
  }

  lemma YAxisIs(p: Params, row: nat, col: nat)
    requires Valid(p) && row < p.rows && col < p.cols
    ensures AxisIs(YAxis(p, row, col), p, p.bezel.top, p.bezel.bottom, BareY(p, row, col))
  {
    AxesHaveSides(p, row, col);
  }

  lemma LeadIs(a: Axis, p: Params, low: nat, high: nat, bare: Option<nat>, s: nat)
    requires AxisIs(a, p, low, high, bare) && s < a.n
    ensures p.bezels.All? ==> Lead(a, p, s) == low && Extent(a, p, s) == low + high + a.tile
    ensures p.bezels.Disable? ==> Lead(a, p, s) == 0 && Extent(a, p, s) == a.tile
    ensures p.bezels.Desktop? ==>
              Lead(a, p, s) == (if bare == Some(s) then 0 else low + high) && Extent(a, p, s) == Lead(a, p, s) + a.tile
  {
  }

  lemma ExtentsAre(a: Axis, p: Params, low: nat, high: nat, bare: Option<nat>)
    requires AxisIs(a, p, low, high, bare)
    ensures AllBut(Extents(a, p), Pitch(p, a.tile, low, high), if p.bezels.Desktop? then bare else None, if p.bezels.Desktop? then low + high else 0)
  {
    forall s | 0 <= s < a.n
      ensures Extents(a, p)[s] == Extent(a, p, s)
    {
      LeadIs(a, p, low, high, bare, s);
    }
    forall s | 0 <= s < a.n
      ensures Extent(a, p, s) == Pitch(p, a.tile, low, high) - if p.bezels.Desktop? && bare == Some(s) then low + high else 0
    {
      LeadIs(a, p, low, high, bare, s);
    }
  }

  lemma AxisMeasured(a: Axis, p: Params, low: nat, high: nat, bare: Option<nat>)
    requires AxisIs(a, p, low, high, bare)
    ensures Size(a, p) == RowSize(p, a.n, a.tile, low, high, bare)
    ensures forall s | 0 <= s < a.n :: Origins(a, p)[s] == RowOrigin(p, s, a.tile, low, high, bare)
  {
    var es, full := Extents(a, p), Pitch(p, a.tile, low, high);
    var skip, less := if p.bezels.Desktop? then bare else None, if p.bezels.Desktop? then low + high else 0;
    ExtentsAre(a, p, low, high, bare);
    StartAllBut(es, full, skip, less, a.n);
    forall s | 0 <= s < a.n
      ensures Origins(a, p)[s] == RowOrigin(p, s, a.tile, low, high, bare)
    {
      StartAllBut(es, full, skip, less, s);
      LeadIs(a, p, low, high, bare, s);
      assert (s + 1) * full == s * full + full;
    }
  }

  /** The framebuffer of each block. All displays count with both bezels; or with none; or,
      on a desktop, with both in front, but for the one at the edge. */
  lemma FramebufferMeasured(p: Params, row: nat, col: nat)
    requires Valid(p) && row < p.rows && col < p.cols
    ensures var shown, b := Block(p, row, col), p.bezel;
            && shown.width == RowSize(p, p.subCols, p.tileW, b.left, b.right, BareX(p, row, col))
            && shown.height == RowSize(p, p.subRows, p.tileH, b.top, b.bottom, BareY(p, row, col))
  {
    AxesAre(p, row, col);
    AxisMeasured(XAxis(p, row, col), p, p.bezel.left, p.bezel.right, BareX(p, row, col));
    AxisMeasured(YAxis(p, row, col), p, p.bezel.top, p.bezel.bottom, BareY(p, row, col));
  }

  /** Output k shows the display in this column and row of the block. */
  function SubCol(p: Params, k: nat): nat { if p.subCols == 2 then k else 0 }
  function SubRow(p: Params, k: nat): nat { if p.subRows == 2 then k else 0 }

  ghost predicate OutputIs(p: Params, row: nat, col: nat, k: nat, s: Scanout)
    requires Valid(p)
  {
    && (p.remap.None? ==> s.port == k) && (p.remap.Some? ==> k < |p.remap.value| && s.port == p.remap.value[k])
    && s.x == RowOrigin(p, SubCol(p, k), p.tileW, p.bezel.left, p.bezel.right, BareX(p, row, col))
    && s.y == RowOrigin(p, SubRow(p, k), p.tileH, p.bezel.top, p.bezel.bottom, BareY(p, row, col))
  }

  /** The outputs of a block, one a display: on the ports in order or as remapped, each
      from where its display starts. Passive stereo has a second output for the same
      display. */
  lemma OutputsMeasured(p: Params, row: nat, col: nat)
    requires Valid(p) && row < p.rows && col < p.cols
    ensures var ss := Block(p, row, col).scanouts;
            && |ss| == (if p.passive then 2 else p.subCols * p.subRows)
            && forall k | 0 <= k < |ss| :: OutputIs(p, row, col, k, ss[k])
  {
    if p.passive { PassiveCannotRemap(p); }
    forall k | 0 <= k < |Block(p, row, col).scanouts|
      ensures OutputIs(p, row, col, k, Block(p, row, col).scanouts[k])
    {
      OutputStarts(p, row, col, k);
      OriginsMeasured(p, row, col, SubCol(p, k), SubRow(p, k));
    }
  }

  lemma OutputStarts(p: Params, row: nat, col: nat, k: nat)
    requires Valid(p) && row < p.rows && col < p.cols && k < |Scanouts(p, row, col)|
    ensures var s := Scanouts(p, row, col)[k];
            && s.x == Origins(XAxis(p, row, col), p)[SubCol(p, k)] && s.y == Origins(YAxis(p, row, col), p)[SubRow(p, k)]
            && (p.remap.None? ==> s.port == k) && (p.remap.Some? && !p.passive ==> k < |p.remap.value| && s.port == p.remap.value[k])
  {
  }

  lemma OriginsMeasured(p: Params, row: nat, col: nat, c: nat, r: nat)
    requires Valid(p) && row < p.rows && col < p.cols && c < p.subCols && r < p.subRows
    ensures Origins(XAxis(p, row, col), p)[c] == RowOrigin(p, c, p.tileW, p.bezel.left, p.bezel.right, BareX(p, row, col))
    ensures Origins(YAxis(p, row, col), p)[r] == RowOrigin(p, r, p.tileH, p.bezel.top, p.bezel.bottom, BareY(p, row, col))
  {
    AxesAre(p, row, col);
    AxisMeasured(XAxis(p, row, col), p, p.bezel.left, p.bezel.right, BareX(p, row, col));
    AxisMeasured(YAxis(p, row, col), p, p.bezel.top, p.bezel.bottom, BareY(p, row, col));
  }

  // --------------------------------------------------------------- the wall

  /** How many displays lie along the width of the wall, and along its height. */
  function DisplaysAcross(p: Params): nat { p.cols * if Rotated(p) then p.subRows else p.subCols }
  function DisplaysDown(p: Params): nat { p.rows * if Rotated(p) then p.subCols else p.subRows }

  /** What a display takes up of the wall with both its bezels. */
  function PitchAcross(p: Params): nat {
    if Rotated(p) then Pitch(p, p.tileH, p.bezel.top, p.bezel.bottom) else Pitch(p, p.tileW, p.bezel.left, p.bezel.right)
  }

  function PitchDown(p: Params): nat {
    if Rotated(p) then Pitch(p, p.tileW, p.bezel.left, p.bezel.right) else Pitch(p, p.tileH, p.bezel.top, p.bezel.bottom)
  }

  /** On a desktop one pair of bezels is left out along each direction, the outer ones; but
      on a wall in portrait with a column of two displays a block, or in inverted portrait
      with a row of two, the code finds no display at the edge, and the wall is larger. */
  function LeftOutAcross(p: Params): nat {
    if !p.bezels.Desktop? || (p.rotate.InvertedPortrait? && p.subCols == 2) then 0
    else if Rotated(p) then p.bezel.top + p.bezel.bottom else p.bezel.left + p.bezel.right
  }

  function LeftOutDown(p: Params): nat {
    if !p.bezels.Desktop? || (p.rotate.Portrait? && p.subRows == 2) then 0
    else if Rotated(p) then p.bezel.left + p.bezel.right else p.bezel.top + p.bezel.bottom
  }

  /** The column that is narrower than the others. */
  function BareColumn(p: Params): nat
    requires p.cols > 0
  {
    if p.rotate.NoRotation? || p.rotate.Portrait? then 0 else p.cols - 1
  }

  function BareRow(p: Params): nat
    requires p.rows > 0
  {
    if p.rotate.NoRotation? || p.rotate.InvertedPortrait? then 0 else p.rows - 1
  }

  lemma ColumnMeasured(p: Params, col: nat)
    requires Valid(p) && col < p.cols
    ensures var n := if Rotated(p) then p.subRows else p.subCols;
            ColWidth(p, col) == n * PitchAcross(p) - if col == BareColumn(p) then LeftOutAcross(p) else 0
  {
    FramebufferMeasured(p, 0, col);
  }

  lemma RowMeasured(p: Params, row: nat)
    requires Valid(p) && row < p.rows
    ensures var n := if Rotated(p) then p.subCols else p.subRows;
            RowHeight(p, row) == n * PitchDown(p) - if row == BareRow(p) then LeftOutDown(p) else 0
  {
    FramebufferMeasured(p, row, 0);
  }

  lemma LeftOutFits(p: Params)
    requires Valid(p)
    ensures LeftOutAcross(p) <= PitchAcross(p) && LeftOutDown(p) <= PitchDown(p)
  {
  }

  /** Stretches of n displays each, one of them shorter. */
  lemma StretchStart(ws: seq<nat>, n: nat, pitch: nat, bare: nat, less: nat, k: nat)
    requires bare < |ws| && k <= |ws| && n > 0 && less <= pitch && forall i | 0 <= i < |ws| :: ws[i] == n * pitch - if i == bare then less else 0
    ensures Start(ws, k) == (k * n) * pitch - if bare < k then less else 0
  {
    MulLe(1, n, pitch);
    StartAllBut(ws, n * pitch, Some(bare), less, k);
    Regrouped(k, n, pitch);
  }

  lemma Regrouped(a: nat, b: nat, c: nat)
    ensures a * (b * c) == (a * b) * c
  {
  }

  /** The wall is as wide and as high as its displays with their bezels, less what is left
      out at the edge of a desktop. */
  lemma WallMeasured(p: Params)
    requires Valid(p)
    ensures Length(ColWidths(p)) == DisplaysAcross(p) * PitchAcross(p) - LeftOutAcross(p)
    ensures Length(RowHeights(p)) == DisplaysDown(p) * PitchDown(p) - LeftOutDown(p)
  {
    StretchesMeasured(p, p.rows, p.cols);
  }

  /** Each block starts behind those on its left and below those above it. */
  lemma BlockMeasured(p: Params, row: nat, col: nat)
    requires Valid(p) && row < p.rows && col < p.cols
    ensures var n, m, r := if Rotated(p) then p.subRows else p.subCols, if Rotated(p) then p.subCols else p.subRows, Block(p, row, col).rect;
            && r.x1 == (col * n) * PitchAcross(p) - (if BareColumn(p) < col then LeftOutAcross(p) else 0)
            && r.y1 == (row * m) * PitchDown(p) - (if BareRow(p) < row then LeftOutDown(p) else 0)
  {
    StretchesMeasured(p, row, col);
  }

  /** Where rows and columns of the wall start. */
  lemma StretchesMeasured(p: Params, row: nat, col: nat)
    requires Valid(p) && row <= p.rows && col <= p.cols
    ensures var n, m := if Rotated(p) then p.subRows else p.subCols, if Rotated(p) then p.subCols else p.subRows;
            && Start(ColWidths(p), col) == (col * n) * PitchAcross(p) - (if BareColumn(p) < col then LeftOutAcross(p) else 0)
            && Start(RowHeights(p), row) == (row * m) * PitchDown(p) - (if BareRow(p) < row then LeftOutDown(p) else 0)
  {
    var n, m := if Rotated(p) then p.subRows else p.subCols, if Rotated(p) then p.subCols else p.subRows;
    LeftOutFits(p);
    forall c | 0 <= c < p.cols
      ensures ColWidths(p)[c] == n * PitchAcross(p) - if c == BareColumn(p) then LeftOutAcross(p) else 0
    {
      ColumnMeasured(p, c);
    }
    forall r | 0 <= r < p.rows
      ensures RowHeights(p)[r] == m * PitchDown(p) - if r == BareRow(p) then LeftOutDown(p) else 0
    {
      RowMeasured(p, r);
    }
    StretchStart(ColWidths(p), n, PitchAcross(p), BareColumn(p), LeftOutAcross(p), col);
    StretchStart(RowHeights(p), m, PitchDown(p), BareRow(p), LeftOutDown(p), row);
  }
}
