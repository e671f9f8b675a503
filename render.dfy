/**
 * The layered renderer of canvasGrid.ts as functions on the values of the
 * drawing surfaces: how one cell, a whole image, the checkerboard and a
 * repaint extend a surface's command list.  The grid's methods are proved
 * to follow these functions.
 */
module Render {
  import opened Optional
  import opened Surface
  import opened Image

  /** The fill for colour 0 when the grid is opaque (light mode). */
  const LightModeBackground: Style := "#dedede"
  /** The checkerboard: a white ground with tiles of this colour. */
  const CheckerWhite: Style := "#ffffff"
  const CheckerDark: Style := "#dedede"
  /** Side of one checkerboard tile, in pixels. */
  const AlphaCellWidth: int := 5
  const CursorStyle: Style := "#898989"
  const SelectionStyle: Style := "#303030"

  /** Cell size in pixels and the palette; palette entry k - 1 is colour index k. */
  datatype Brush = Brush(cellWidth: int, cellHeight: int, palette: seq<Style>)

  /**
   * The style assigned for a nonzero colour.  An index with no palette
   * entry assigns `undefined`, which a 2D context ignores, so the current
   * style stays.
   */
  function PaletteStyle(palette: seq<Style>, color: int, current: Style): Style {
    if 1 <= color <= |palette| then palette[color - 1] else current
  }

  /** `drawColor(col, row, color, context, transparency)`. */
  function DrawColorOn(p: Pen, b: Brush, col: int, row: int, color: int, transparency: bool): (q: Pen)
    ensures q.stroke == p.stroke
    // nothing is drawn exactly for colour 0 on a transparent grid
    ensures q.ops == p.ops <==> color == 0 && transparency
    ensures color == 0 && transparency ==> q == p
    // otherwise exactly the cell's rectangle is filled, once
    ensures !(color == 0 && transparency) ==>
              q.ops == p.ops + [Fill(col * b.cellWidth, row * b.cellHeight, b.cellWidth, b.cellHeight, q.fill)]
    ensures 1 <= color <= |b.palette| ==> q.fill == b.palette[color - 1]
    ensures color == 0 && !transparency ==> q.fill == LightModeBackground
    ensures color != 0 && !(1 <= color <= |b.palette|) ==> q.fill == p.fill
  {
    var x, y := col * b.cellWidth, row * b.cellHeight;
    if color != 0 then
      var s := PaletteStyle(b.palette, color, p.fill);
      Pen(s, p.stroke, p.ops + [Fill(x, y, b.cellWidth, b.cellHeight, s)])
    else if !transparency then
      Pen(LightModeBackground, p.stroke, p.ops + [Fill(x, y, b.cellWidth, b.cellHeight, LightModeBackground)])
    else
      p
  }

  /** Rows 0 .. n - 1 of column c of `img`, drawn at offset (left, top). */
  function DrawColumnOn(p: Pen, b: Brush, img: Bitmap, left: int, top: int, transparency: bool, c: int, n: nat): Pen
    decreases n
  {
    if n == 0 then p
    else DrawColorOn(DrawColumnOn(p, b, img, left, top, transparency, c, n - 1), b,
                     left + c, top + (n - 1), img.Get(c, n - 1), transparency)
  }

  /** Columns 0 .. n - 1 of `img`, each drawn top to bottom. */
  function DrawColumnsOn(p: Pen, b: Brush, img: Bitmap, left: int, top: int, transparency: bool, n: nat): Pen
    decreases n
  {
    if n == 0 then p
    else DrawColumnOn(DrawColumnsOn(p, b, img, left, top, transparency, n - 1), b, img, left, top, transparency,
                      n - 1, img.height)
  }

  /** `drawImage(image, context, left, top, transparency)`. */
  function DrawImageOn(p: Pen, b: Brush, img: Bitmap, left: int, top: int, transparency: bool): Pen {
    DrawColumnsOn(p, b, img, left, top, transparency, img.width)
  }

  // ---------------------------------------------------------------------
  // What drawing an image amounts to

  ghost predicate Blank(img: Bitmap) {
    forall c, r :: 0 <= c < img.width && 0 <= r < img.height ==> img.Get(c, r) == 0
  }

  ghost predicate PaletteCovers(img: Bitmap, palette: seq<Style>) {
    forall c, r :: 0 <= c < img.width && 0 <= r < img.height ==> 0 <= img.Get(c, r) <= |palette|
  }

  /** The fill an opaque grid gives a cell whose colour has a palette entry (or is 0). */
  function CellFill(b: Brush, img: Bitmap, left: int, top: int, c: int, r: int): Op
    requires 0 <= img.Get(c, r) <= |b.palette|
  {
    var color := img.Get(c, r);
    Fill((left + c) * b.cellWidth, (top + r) * b.cellHeight, b.cellWidth, b.cellHeight,
         if color == 0 then LightModeBackground else b.palette[color - 1])
  }

  lemma {:induction false} BlankColumnDrawsNothing(p: Pen, b: Brush, img: Bitmap, left: int, top: int, c: int, n: nat)
    requires Blank(img) && 0 <= c < img.width && n <= img.height
    ensures DrawColumnOn(p, b, img, left, top, true, c, n) == p
  {
    if n > 0 {
      BlankColumnDrawsNothing(p, b, img, left, top, c, n - 1);
    }
  }

  lemma {:induction false} BlankColumnsDrawNothing(p: Pen, b: Brush, img: Bitmap, left: int, top: int, n: nat)
    requires Blank(img) && n <= img.width
    ensures DrawColumnsOn(p, b, img, left, top, true, n) == p
  {
    if n > 0 {
      BlankColumnsDrawNothing(p, b, img, left, top, n - 1);
      BlankColumnDrawsNothing(p, b, img, left, top, n - 1, img.height);
    }
  }

  /** On a transparent grid an all-zero image draws nothing: the background shows through. */
  lemma BlankTransparentImageDrawsNothing(p: Pen, b: Brush, img: Bitmap, left: int, top: int)
    requires Blank(img)
    ensures DrawImageOn(p, b, img, left, top, true) == p
  {
    BlankColumnsDrawNothing(p, b, img, left, top, img.width);
  }

  /** The fills of rows 0 .. n - 1 of column c, top to bottom. */
  function ColumnFills(b: Brush, img: Bitmap, left: int, top: int, c: int, n: nat): (fs: seq<Op>)
    requires PaletteCovers(img, b.palette) && 0 <= c < img.width && n <= img.height
    ensures |fs| == n
  {
    if n == 0 then [] else ColumnFills(b, img, left, top, c, n - 1) + [CellFill(b, img, left, top, c, n - 1)]
  }

  lemma {:induction false} ColumnFillsAt(b: Brush, img: Bitmap, left: int, top: int, c: int, n: nat, r: nat)
    requires PaletteCovers(img, b.palette) && 0 <= c < img.width && n <= img.height && r < n
    ensures ColumnFills(b, img, left, top, c, n)[r] == CellFill(b, img, left, top, c, r)
  {
    if r < n - 1 {
      ColumnFillsAt(b, img, left, top, c, n - 1, r);
    }
  }

  /** The fills of columns 0 .. n - 1, column after column. */
  function ImageFills(b: Brush, img: Bitmap, left: int, top: int, n: nat): seq<Op>
    requires PaletteCovers(img, b.palette) && n <= img.width
  {
    if n == 0 then [] else ImageFills(b, img, left, top, n - 1) + ColumnFills(b, img, left, top, n - 1, img.height)
  }

  /** On an opaque grid, drawing one cell whose colour has a palette entry (or is 0) appends its `CellFill`. */
  lemma OpaqueCellFill(p: Pen, b: Brush, img: Bitmap, left: int, top: int, c: int, r: int)
    requires 0 <= img.Get(c, r) <= |b.palette|
    ensures DrawColorOn(p, b, left + c, top + r, img.Get(c, r), false).ops == p.ops + [CellFill(b, img, left, top, c, r)]
  {
  }

  lemma {:induction false} OpaqueColumnFills(p: Pen, b: Brush, img: Bitmap, left: int, top: int, c: int, n: nat)
    requires PaletteCovers(img, b.palette) && 0 <= c < img.width && n <= img.height
    ensures DrawColumnOn(p, b, img, left, top, false, c, n).ops == p.ops + ColumnFills(b, img, left, top, c, n)
  {
    if n > 0 {
      var q := DrawColumnOn(p, b, img, left, top, false, c, n - 1);
      OpaqueColumnFills(p, b, img, left, top, c, n - 1);
      OpaqueCellFill(q, b, img, left, top, c, n - 1);
      var fs := ColumnFills(b, img, left, top, c, n - 1);
      assert p.ops + fs + [CellFill(b, img, left, top, c, n - 1)] == p.ops + (fs + [CellFill(b, img, left, top, c, n - 1)]);
    }
  }

  lemma {:induction false} OpaqueColumnsFill(p: Pen, b: Brush, img: Bitmap, left: int, top: int, n: nat)
    requires PaletteCovers(img, b.palette) && n <= img.width
    ensures DrawColumnsOn(p, b, img, left, top, false, n).ops == p.ops + ImageFills(b, img, left, top, n)
  {
    if n > 0 {
      var q := DrawColumnsOn(p, b, img, left, top, false, n - 1);
      OpaqueColumnsFill(p, b, img, left, top, n - 1);
      OpaqueColumnFills(q, b, img, left, top, n - 1, img.height);
      var pre := ImageFills(b, img, left, top, n - 1);
      var col := ColumnFills(b, img, left, top, n - 1, img.height);
      assert p.ops + pre + col == p.ops + (pre + col);
    }
  }

  lemma MulMonotone(a: nat, b: nat, h: nat)
    requires a <= b
    ensures a * h <= b * h
  {
  }

  /** Where cell (c, r) of a width by height image falls when cells are listed column after column. */
  function CellIndex(width: nat, height: nat, c: nat, r: nat): (k: nat)
    requires c < width && r < height
    ensures k < width * height
  {
    MulMonotone(c + 1, width, height);
    c * height + r
  }

  lemma {:induction false} ImageFillsLength(b: Brush, img: Bitmap, left: int, top: int, n: nat)
    requires PaletteCovers(img, b.palette) && n <= img.width
    ensures |ImageFills(b, img, left, top, n)| == n * img.height
  {
    if n > 0 {
      ImageFillsLength(b, img, left, top, n - 1);
      assert (n - 1) * img.height + img.height == n * img.height;
    }
  }

  /** The last of the first n columns starts right after the fills of the columns before it. */
  lemma LastColumnFillAt(b: Brush, img: Bitmap, left: int, top: int, n: nat, r: nat, k: nat)
    requires PaletteCovers(img, b.palette) && 0 < n <= img.width && r < img.height
    requires k == (n - 1) * img.height + r
    ensures k < |ImageFills(b, img, left, top, n)|
    ensures ImageFills(b, img, left, top, n)[k] == CellFill(b, img, left, top, n - 1, r)
  {
    var pre := ImageFills(b, img, left, top, n - 1);
    var col := ColumnFills(b, img, left, top, n - 1, img.height);
    ImageFillsLength(b, img, left, top, n - 1);
    assert ImageFills(b, img, left, top, n) == pre + col;
    AppendedAt(pre, col, r);
    ColumnFillsAt(b, img, left, top, n - 1, img.height, r);
  }

  /** The fill for cell (c, r) sits at position k = c * height + r of the first n columns' fills. */
  lemma {:induction false} ImageFillsCell(b: Brush, img: Bitmap, left: int, top: int, n: nat, c: nat, r: nat, k: nat)
    requires PaletteCovers(img, b.palette) && n <= img.width && c < n && r < img.height
    requires k == c * img.height + r
    ensures k < |ImageFills(b, img, left, top, n)|
    ensures ImageFills(b, img, left, top, n)[k] == CellFill(b, img, left, top, c, r)
  {
    if c < n - 1 {
      var pre := ImageFills(b, img, left, top, n - 1);
      var col := ColumnFills(b, img, left, top, n - 1, img.height);
      assert ImageFills(b, img, left, top, n) == pre + col;
      ImageFillsCell(b, img, left, top, n - 1, c, r, k);
      assert (pre + col)[k] == pre[k];
    } else {
      LastColumnFillAt(b, img, left, top, n, r, k);
    }
  }

  lemma ImageFillsAt(b: Brush, img: Bitmap, left: int, top: int, n: nat)
    requires PaletteCovers(img, b.palette) && n <= img.width
    ensures |ImageFills(b, img, left, top, n)| == n * img.height
    ensures forall c, r :: 0 <= c < n && 0 <= r < img.height ==>
              ImageFills(b, img, left, top, n)[CellIndex(n, img.height, c, r)] == CellFill(b, img, left, top, c, r)
  {
    ImageFillsLength(b, img, left, top, n);
    forall c, r | 0 <= c < n && 0 <= r < img.height
      ensures ImageFills(b, img, left, top, n)[CellIndex(n, img.height, c, r)] == CellFill(b, img, left, top, c, r)
    {
      ImageFillsCell(b, img, left, top, n, c, r, CellIndex(n, img.height, c, r));
    }
  }

  /**
   * On an opaque grid every cell is filled exactly once, in column-major
   * order: the command for cell (c, r) sits at position c * height + r of
   * what is appended, and fills that cell's rectangle with its colour, or
   * with the light background for colour 0.
   */
  lemma OpaqueImageFillsEveryCell(p: Pen, b: Brush, img: Bitmap, left: int, top: int)
    requires PaletteCovers(img, b.palette)
    ensures var q := DrawImageOn(p, b, img, left, top, false);
      |q.ops| == |p.ops| + img.width * img.height &&
      q.ops[..|p.ops|] == p.ops &&
      forall c, r :: 0 <= c < img.width && 0 <= r < img.height ==>
        q.ops[|p.ops| + CellIndex(img.width, img.height, c, r)] == CellFill(b, img, left, top, c, r)
  {
    OpaqueColumnsFill(p, b, img, left, top, img.width);
    ImageFillsAt(b, img, left, top, img.width);
    var q := DrawImageOn(p, b, img, left, top, false);
    var fills := ImageFills(b, img, left, top, img.width);
    assert q.ops == p.ops + fills;
    forall c, r | 0 <= c < img.width && 0 <= r < img.height
      ensures q.ops[|p.ops| + CellIndex(img.width, img.height, c, r)] == CellFill(b, img, left, top, c, r)
    {
      var k := CellIndex(img.width, img.height, c, r);
      assert fills[k] == CellFill(b, img, left, top, c, r);
      AppendedAt(p.ops, fills, k);
    }
  }

  lemma AppendedAt<T>(a: seq<T>, f: seq<T>, k: nat)
    requires k < |f|
    ensures (a + f)[|a| + k] == f[k]
  {
  }

  lemma {:induction false} ColumnOnlyFills(p: Pen, b: Brush, img: Bitmap, left: int, top: int, t: bool, c: int, n: nat)
    ensures var q := DrawColumnOn(p, b, img, left, top, t, c, n);
      |p.ops| <= |q.ops| && q.ops[..|p.ops|] == p.ops && forall i :: |p.ops| <= i < |q.ops| ==> q.ops[i].Fill?
  {
    if n > 0 {
      ColumnOnlyFills(p, b, img, left, top, t, c, n - 1);
    }
  }

  /** Drawing an image keeps what was drawn before and adds only fills. */
  lemma {:induction false} ImageOnlyFills(p: Pen, b: Brush, img: Bitmap, left: int, top: int, t: bool, n: nat)
    ensures var q := DrawColumnsOn(p, b, img, left, top, t, n);
      |p.ops| <= |q.ops| && q.ops[..|p.ops|] == p.ops && forall i :: |p.ops| <= i < |q.ops| ==> q.ops[i].Fill?
  {
    if n > 0 {
      var q := DrawColumnsOn(p, b, img, left, top, t, n - 1);
      ImageOnlyFills(p, b, img, left, top, t, n - 1);
      ColumnOnlyFills(q, b, img, left, top, t, n - 1, img.height);
    }
  }

  // ---------------------------------------------------------------------
  // The checkerboard background

  /** `Math.ceil(n / 5)` for an integer n. */
  function CeilDiv5(n: int): (k: int)
    ensures AlphaCellWidth * (k - 1) < n <= AlphaCellWidth * k
  {
    (n + AlphaCellWidth - 1) / AlphaCellWidth
  }

  function Tile(ac: int, ar: int): Op {
    Fill(ac * AlphaCellWidth, ar * AlphaCellWidth, AlphaCellWidth, AlphaCellWidth, CheckerDark)
  }

  /** Tiles of rows 0 .. n - 1 of tile column ac: those whose parity is odd. */
  function TileColumn(ac: int, n: int): seq<Op>
    decreases if n < 0 then 0 else n
  {
    if n <= 0 then [] else TileColumn(ac, n - 1) + (if (ac + n - 1) % 2 == 1 then [Tile(ac, n - 1)] else [])
  }

  /** Tiles of tile columns 0 .. n - 1, each with `rows` rows. */
  function TileColumns(n: int, rows: int): seq<Op>
    decreases if n < 0 then 0 else n
  {
    if n <= 0 then [] else TileColumns(n - 1, rows) + TileColumn(n - 1, rows)
  }

  /** `drawBackground()` on a paint layer of width by height pixels. */
  function BackgroundOn(p: Pen, width: int, height: int): Pen {
    var cols := CeilDiv5(width);
    var rows := CeilDiv5(height);
    Pen(CheckerDark, p.stroke, p.ops + [Fill(0, 0, width, height, CheckerWhite)] + TileColumns(cols, rows))
  }

  lemma {:induction false} TileColumnExactlyOdd(ac: int, n: int)
    ensures forall c, r :: Tile(c, r) in TileColumn(ac, n) <==> c == ac && 0 <= r < n && (c + r) % 2 == 1
    ensures forall op :: op in TileColumn(ac, n) ==> op == Tile(op.x / AlphaCellWidth, op.y / AlphaCellWidth)
    decreases if n < 0 then 0 else n
  {
    if n > 0 {
      TileColumnExactlyOdd(ac, n - 1);
    }
  }

  lemma {:induction false} TileColumnsExactlyOdd(n: int, rows: int)
    ensures forall c, r :: Tile(c, r) in TileColumns(n, rows) <==> 0 <= c < n && 0 <= r < rows && (c + r) % 2 == 1
    ensures forall op :: op in TileColumns(n, rows) ==> op == Tile(op.x / AlphaCellWidth, op.y / AlphaCellWidth)
    decreases if n < 0 then 0 else n
  {
    if n > 0 {
      TileColumnsExactlyOdd(n - 1, rows);
      TileColumnExactlyOdd(n - 1, rows);
    }
  }

  /**
   * The background is a white rectangle over the whole layer followed by
   * tiles, and a tile is drawn exactly at the (column, row) positions of the
   * ceil(width / 5) by ceil(height / 5) tile grid whose parity is odd.
   */
  lemma CheckerboardIsOddTiles(p: Pen, width: int, height: int)
    ensures var q := BackgroundOn(p, width, height);
      var tiles := q.ops[|p.ops| + 1..];
      q.ops[..|p.ops| + 1] == p.ops + [Fill(0, 0, width, height, CheckerWhite)] &&
      (forall c, r :: Tile(c, r) in tiles <==>
         0 <= c < CeilDiv5(width) && 0 <= r < CeilDiv5(height) && (c + r) % 2 == 1) &&
      (forall op :: op in tiles ==> op == Tile(op.x / AlphaCellWidth, op.y / AlphaCellWidth))
  {
    var q := BackgroundOn(p, width, height);
    TileColumnsExactlyOdd(CeilDiv5(width), CeilDiv5(height));
    assert q.ops[|p.ops| + 1..] == TileColumns(CeilDiv5(width), CeilDiv5(height));
  }

  // ---------------------------------------------------------------------
  // Repainting the paint and overlay layers

  /**
   * What a repaint can change: the paint and overlay layers, whether the
   * overlay is visible, whether the marching-ants timer runs, and whether
   * the fade animation is absent or dead (`fadeIdle`).
   */
  datatype Screen = Screen(paint: Pen, overlay: Pen, overlayVisible: bool, selectAnimating: bool, fadeIdle: bool)

  /** What a repaint reads: the brush, the mode, the editor state and the paint layer's size. */
  datatype Config = Config(brush: Brush, lightMode: bool, state: CanvasState, layerWidth: int, layerHeight: int)

  /** `clearContext`: clears a rectangle the size of the paint layer. */
  function ClearOn(p: Pen, width: int, height: int): Pen {
    p.(ops := p.ops + [Clear(0, 0, width, height)])
  }

  /** `hideOverlay()`: stops the marching ants, hides the overlay and kills the fade. */
  function HideOverlayOn(s: Screen): Screen {
    s.(overlayVisible := false, selectAnimating := false, fadeIdle := true)
  }

  /**
   * `drawSelectionAnimation(0)`: outline the floating layer on the overlay,
   * and start the marching ants unless in light mode, already running, or
   * a fade is alive.
   */
  function SelectionOn(s: Screen, cfg: Config): Screen {
    match cfg.state.floatingLayer
    case None => HideOverlayOn(s)
    case Some(f) =>
      var b := cfg.brush;
      var cleared := ClearOn(s.overlay, cfg.layerWidth, cfg.layerHeight);
      var outline := Stroke(cfg.state.layerOffsetX * b.cellWidth, cfg.state.layerOffsetY * b.cellHeight,
                            f.width * b.cellWidth, f.height * b.cellHeight, SelectionStyle);
      s.(overlayVisible := true,
         overlay := Pen(cleared.fill, SelectionStyle, cleared.ops + [outline]),
         selectAnimating := s.selectAnimating || (!cfg.lightMode && s.fadeIdle))
  }

  /** `drawFloatingLayer()`: the floating layer is drawn transparently at its offset. */
  function FloatingOn(s: Screen, cfg: Config): Screen {
    match cfg.state.floatingLayer
    case None => s
    case Some(f) =>
      var painted := DrawImageOn(s.paint, cfg.brush, f, cfg.state.layerOffsetX, cfg.state.layerOffsetY, true);
      SelectionOn(s.(paint := painted), cfg)
  }

  /** `repaint()`: clear, draw the image, then the floating layer or else hide the overlay. */
  function RepaintOn(s: Screen, cfg: Config): Screen {
    var cleared := ClearOn(s.paint, cfg.layerWidth, cfg.layerHeight);
    var s1 := s.(paint := DrawImageOn(cleared, cfg.brush, cfg.state.image, 0, 0, !cfg.lightMode));
    if cfg.state.floatingLayer.Some? then FloatingOn(s1, cfg) else HideOverlayOn(s1)
  }

  /**
   * A repaint adds one clear of the whole layer and then only fills; the
   * overlay is shown exactly when there is a floating layer, and without
   * one the marching ants and the fade are stopped and the overlay is
   * left as it was.
   */
  lemma RepaintClearsThenFills(s: Screen, cfg: Config)
    ensures var r := RepaintOn(s, cfg);
      var n := |s.paint.ops|;
      |r.paint.ops| > n &&
      r.paint.ops[..n + 1] == s.paint.ops + [Clear(0, 0, cfg.layerWidth, cfg.layerHeight)] &&
      (forall i :: n + 1 <= i < |r.paint.ops| ==> r.paint.ops[i].Fill?) &&
      (r.overlayVisible <==> cfg.state.floatingLayer.Some?) &&
      (cfg.state.floatingLayer.None? ==> !r.selectAnimating && r.fadeIdle && r.overlay == s.overlay)
  {
    var cleared := ClearOn(s.paint, cfg.layerWidth, cfg.layerHeight);
    var drawn := DrawImageOn(cleared, cfg.brush, cfg.state.image, 0, 0, !cfg.lightMode);
    ImageOnlyFills(cleared, cfg.brush, cfg.state.image, 0, 0, !cfg.lightMode, cfg.state.image.width);
    if cfg.state.floatingLayer.Some? {
      var f := cfg.state.floatingLayer.value;
      ImageOnlyFills(drawn, cfg.brush, f, cfg.state.layerOffsetX, cfg.state.layerOffsetY, true, f.width);
      var final := DrawImageOn(drawn, cfg.brush, f, cfg.state.layerOffsetX, cfg.state.layerOffsetY, true);
      assert final.ops[..|drawn.ops|] == drawn.ops;
      assert final.ops[..|cleared.ops|] == drawn.ops[..|cleared.ops|];
    }
  }

  /**
   * Repainting an all-zero image with no floating layer: on a transparent
   * grid only the clear is added, so the checkerboard shows through; on an
   * opaque grid every cell then gets the light background fill.
   */
  lemma RepaintBlankImage(s: Screen, cfg: Config)
    requires Blank(cfg.state.image) && cfg.state.floatingLayer.None?
    ensures var r := RepaintOn(s, cfg);
      var img := cfg.state.image;
      var b := cfg.brush;
      var n := |s.paint.ops| + 1;
      (!cfg.lightMode ==> r.paint.ops == s.paint.ops + [Clear(0, 0, cfg.layerWidth, cfg.layerHeight)]) &&
      (cfg.lightMode ==>
         |r.paint.ops| == n + img.width * img.height &&
         forall c, r' :: 0 <= c < img.width && 0 <= r' < img.height ==>
           r.paint.ops[n + CellIndex(img.width, img.height, c, r')] ==
             Fill(c * b.cellWidth, r' * b.cellHeight, b.cellWidth, b.cellHeight, LightModeBackground))
  {
    var cleared := ClearOn(s.paint, cfg.layerWidth, cfg.layerHeight);
    var img := cfg.state.image;
    if cfg.lightMode {
      OpaqueImageFillsEveryCell(cleared, cfg.brush, img, 0, 0);
    } else {
      BlankTransparentImageDrawsNothing(cleared, cfg.brush, img, 0, 0);
    }
  }

  // ---------------------------------------------------------------------
  // The cursor

  datatype CursorRect = CursorRect(offsetX: int, offsetY: int, width: int, height: int)

  /**
   * What the grid asks of the active tool: its cursor rectangle (in cells,
   * relative to the pointer), whether it previews, whether a gesture has
   * started, its colour, and the cells its `drawCursor` plots for the
   * pointer position being drawn.
   */
  datatype Edit = Edit(cursor: Option<CursorRect>, showPreview: bool, isStarted: bool, color: int, preview: seq<(int, int)>)

  /** Plotting the preview cells with `drawColor` in the grid's own transparency. */
  function PreviewOn(p: Pen, b: Brush, cells: seq<(int, int)>, color: int, transparency: bool): Pen
    decreases |cells|
  {
    if cells == [] then p
    else DrawColorOn(PreviewOn(p, b, cells[..|cells| - 1], color, transparency), b,
                     cells[|cells| - 1].0, cells[|cells| - 1].1, color, transparency)
  }

  /** `drawCursor(edit, col, row)`. */
  function DrawCursorOn(s: Screen, cfg: Config, edit: Edit, col: int, row: int): Screen {
    match edit.cursor
    case Some(cur) =>
      var s1 := RepaintOn(s, cfg);
      var b := cfg.brush;
      var p := if edit.showPreview then PreviewOn(s1.paint, b, edit.preview, edit.color, !cfg.lightMode) else s1.paint;
      var outline := Stroke((col + cur.offsetX) * b.cellWidth, (row + cur.offsetY) * b.cellHeight,
                            cur.width * b.cellWidth, cur.height * b.cellHeight, CursorStyle);
      s1.(paint := Pen(p.fill, CursorStyle, p.ops + [outline]))
    case None =>
      if edit.isStarted then RepaintOn(s, cfg) else s
  }

  /**
   * With a cursor, the whole repaint comes first (a clear of the layer,
   * then only fills), the preview adds only fills, and the last command is
   * the cursor outline, in the cursor colour, around `cursor` shifted to
   * the pointer; the overlay and animation flags are the repaint's.
   * Without a cursor the grid repaints if the tool has started and is
   * otherwise left untouched.
   */
  lemma CursorOutlineIsLast(s: Screen, cfg: Config, edit: Edit, col: int, row: int)
    ensures var r := DrawCursorOn(s, cfg, edit, col, row);
      var rp := RepaintOn(s, cfg);
      var b := cfg.brush;
      var n := |s.paint.ops|;
      (edit.cursor.Some? ==>
         var cur := edit.cursor.value;
         |r.paint.ops| > |rp.paint.ops| > n &&
         r.paint.ops[..|rp.paint.ops|] == rp.paint.ops &&
         r.paint.ops[..n + 1] == s.paint.ops + [Clear(0, 0, cfg.layerWidth, cfg.layerHeight)] &&
         (forall i :: n + 1 <= i < |r.paint.ops| - 1 ==> r.paint.ops[i].Fill?) &&
         r.paint.ops[|r.paint.ops| - 1] ==
           Stroke((col + cur.offsetX) * b.cellWidth, (row + cur.offsetY) * b.cellHeight,
                  cur.width * b.cellWidth, cur.height * b.cellHeight, CursorStyle) &&
         r.paint.stroke == CursorStyle &&
         r.(paint := rp.paint) == rp) &&
      (edit.cursor.None? && edit.isStarted ==> r == rp) &&
      (edit.cursor.None? && !edit.isStarted ==> r == s)
  {
    if edit.cursor.Some? {
      RepaintClearsThenFills(s, cfg);
      var s1 := RepaintOn(s, cfg);
      if edit.showPreview {
        PreviewOnlyFills(s1.paint, cfg.brush, edit.preview, edit.color, !cfg.lightMode);
        var p := PreviewOn(s1.paint, cfg.brush, edit.preview, edit.color, !cfg.lightMode);
        assert p.ops[..|s.paint.ops| + 1] == s1.paint.ops[..|s.paint.ops| + 1];
      }
    }
  }

  /** Plotting preview cells keeps every earlier command and adds only fills. */
  lemma {:induction false} PreviewOnlyFills(p: Pen, b: Brush, cells: seq<(int, int)>, color: int, t: bool)
    ensures var q := PreviewOn(p, b, cells, color, t);
      |q.ops| >= |p.ops| && q.ops[..|p.ops|] == p.ops &&
      forall i :: |p.ops| <= i < |q.ops| ==> q.ops[i].Fill?
    decreases |cells|
  {
    if cells != [] {
      PreviewOnlyFills(p, b, cells[..|cells| - 1], color, t);
      var q0 := PreviewOn(p, b, cells[..|cells| - 1], color, t);
      var q := PreviewOn(p, b, cells, color, t);
      assert q.ops[..|q0.ops|] == q0.ops;
      assert q.ops[..|p.ops|] == q0.ops[..|p.ops|];
    }
  }
}
