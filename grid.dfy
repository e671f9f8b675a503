/**
 * `CanvasGrid`: the grid controller that owns the three layers (background
 * checkerboard, paint, overlay), the cell geometry, the gesture state
 * machine and the document listeners, and repaints from the editor state.
 *
 * Cell coordinates reach the handlers as integers: the conversion from a
 * pointer event (`clientEventToCell`) is not part of this model.  There,
 * both the cell width and the cell height are derived from the paint
 * layer's on-screen width.
 */
module Grid {
  import opened Optional
  import opened Surface
  import opened Image
  import opened Numbers
  import opened Gestures
  import opened Routing
  import opened Render
  import opened Animation

  class CanvasGrid {
    var cellWidth: int
    var cellHeight: int
    const palette: seq<Style>
    var state: CanvasState
    const lightMode: bool
    /** A touch platform without pointer events: touchend/touchcancel stand in for up/leave. */
    const touchOnly: bool

    const paintLayer: Canvas
    const overlayLayer: Canvas
    /** Absent in light mode. */
    const backgroundLayer: Canvas?

    var overlayVisible: bool
    /** Whether the marching-ants interval timer is set. */
    var selectAnimating: bool
    var fadeAnimation: Fade?
    /** Created by the first subscription. */
    var gesture: GestureState?
    /** The document-level listeners currently registered. */
    var listeners: set<Listener>

    /**
     * The layers are distinct and all of the paint layer's size (the
     * overlay is cleared with the paint layer's dimensions); a background
     * layer exists exactly outside light mode; the listeners are in one mode.
     */
    ghost predicate Valid()
      reads this, paintLayer, overlayLayer, backgroundLayer
    {
      && paintLayer != overlayLayer
      && overlayLayer.width == paintLayer.width && overlayLayer.height == paintLayer.height
      && (backgroundLayer != null ==>
            backgroundLayer.width == paintLayer.width && backgroundLayer.height == paintLayer.height)
      && (lightMode <==> backgroundLayer == null)
      && (backgroundLayer != null ==> backgroundLayer != paintLayer && backgroundLayer != overlayLayer)
      && ModeOk(listeners, touchOnly)
      && (listeners == DragMode(touchOnly) ==> gesture != null)
    }

    constructor (palette: seq<Style>, state: CanvasState, lightMode: bool, touchOnly: bool)
      ensures Valid()
      ensures fresh(paintLayer) && fresh(overlayLayer) && (backgroundLayer != null ==> fresh(backgroundLayer))
      ensures this.palette == palette && this.state == state
      ensures this.lightMode == lightMode && this.touchOnly == touchOnly
      ensures cellWidth == 16 && cellHeight == 16
      ensures paintLayer.width == 300 && paintLayer.height == 150
      ensures paintLayer.View() == Pen(if lightMode then LightModeBackground else DefaultStyle, DefaultStyle, [])
      ensures overlayLayer.View() == Pen(DefaultStyle, DefaultStyle, [])
      ensures !overlayVisible && !selectAnimating && fadeAnimation == null
      ensures gesture == null && listeners == {}
    {
      this.palette := palette;
      this.state := state;
      this.lightMode := lightMode;
      this.touchOnly := touchOnly;
      cellWidth, cellHeight := 16, 16;
      var paint := new Canvas();
      var overlay := new Canvas();
      paintLayer, overlayLayer := paint, overlay;
      if !lightMode {
        var background := new Canvas();
        backgroundLayer := background;
      } else {
        backgroundLayer := null;
      }
      fadeAnimation, gesture, listeners := null, null, {};
      selectAnimating, overlayVisible := false, false;
      new;
      if lightMode {
        paintLayer.SetFillStyle(LightModeBackground);
      }
    }

    function CurrentBrush(): Brush
      reads this
    {
      Brush(cellWidth, cellHeight, palette)
    }

    function CurrentConfig(): Config
      reads this, paintLayer
    {
      Config(CurrentBrush(), lightMode, state, paintLayer.width, paintLayer.height)
    }

    function CurrentScreen(): Screen
      reads this, paintLayer, overlayLayer, fadeAnimation
    {
      Screen(paintLayer.View(), overlayLayer.View(), overlayVisible, selectAnimating,
             fadeAnimation == null || fadeAnimation.dead)
    }

    // -------------------------------------------------------------------
    // Drawing cells and images

    method DrawColor(col: int, row: int, color: int, ctx: Canvas, transparency: bool)
      modifies ctx`fillStyle, ctx`ops
      ensures ctx.View() == DrawColorOn(old(ctx.View()), CurrentBrush(), col, row, color, transparency)
    {
      var x := col * cellWidth;
      var y := row * cellHeight;
      if color != 0 {
        // palette[color - 1] is undefined outside the palette, and the context ignores it
        if 1 <= color <= |palette| {
          ctx.SetFillStyle(palette[color - 1]);
        }
        ctx.FillRect(x, y, cellWidth, cellHeight);
      } else if !transparency {
        ctx.SetFillStyle(LightModeBackground);
        ctx.FillRect(x, y, cellWidth, cellHeight);
      }
    }

    method WriteColor(col: int, row: int, color: int)
      modifies this`state, paintLayer`fillStyle, paintLayer`ops
      ensures state == old(state).(image := old(state.image).Set(col, row, color))
      ensures paintLayer.View() == DrawColorOn(old(paintLayer.View()), CurrentBrush(), col, row, color, !lightMode)
    {
      state := state.(image := state.image.Set(col, row, color));
      DrawColor(col, row, color, paintLayer, !lightMode);
    }

    method DrawImage(img: Bitmap, ctx: Canvas, left: int, top: int, transparency: bool)
      modifies ctx`fillStyle, ctx`ops
      ensures ctx.View() == DrawImageOn(old(ctx.View()), CurrentBrush(), img, left, top, transparency)
    {
      ghost var p0 := ctx.View();
      var c := 0;
      while c < img.width
        invariant 0 <= c <= img.width
        invariant ctx.View() == DrawColumnsOn(p0, CurrentBrush(), img, left, top, transparency, c)
      {
        var r := 0;
        while r < img.height
          invariant 0 <= r <= img.height
          invariant ctx.View() == DrawColumnOn(DrawColumnsOn(p0, CurrentBrush(), img, left, top, transparency, c),
                                               CurrentBrush(), img, left, top, transparency, c, r)
        {
          DrawColor(left + c, top + r, img.Get(c, r), ctx, transparency);
          r := r + 1;
        }
        c := c + 1;
      }
    }

    /** One column of dark tiles of the checkerboard: rows 0 .. rows - 1 of tile column `ac`, odd parity only. */
    method DrawTileColumn(ctx: Canvas, ac: int, rows: int)
      requires ctx.fillStyle == CheckerDark
      modifies ctx`ops
      ensures ctx.View() == old(ctx.View()).(ops := old(ctx.ops) + TileColumn(ac, rows))
    {
      var ar := 0;
      while ar < rows
        invariant 0 <= ar && (ar <= rows || ar == 0)
        invariant ctx.View() == old(ctx.View()).(ops := old(ctx.ops) + TileColumn(ac, ar))
      {
        if (ac + ar) % 2 == 1 {
          ctx.FillRect(ac * AlphaCellWidth, ar * AlphaCellWidth, AlphaCellWidth, AlphaCellWidth);
        }
        ar := ar + 1;
      }
      assert TileColumn(ac, ar) == TileColumn(ac, rows);
    }

    /** The dark tiles of the checkerboard, column after column. */
    method DrawTiles(ctx: Canvas, cols: int, rows: int)
      requires ctx.fillStyle == CheckerDark
      modifies ctx`ops
      ensures ctx.View() == old(ctx.View()).(ops := old(ctx.ops) + TileColumns(cols, rows))
    {
      ghost var base := ctx.ops;
      var ac := 0;
      while ac < cols
        invariant 0 <= ac && (ac <= cols || ac == 0)
        invariant ctx.fillStyle == old(ctx.fillStyle) && ctx.strokeStyle == old(ctx.strokeStyle)
        invariant ctx.ops == base + TileColumns(ac, rows)
      {
        DrawTileColumn(ctx, ac, rows);
        assert base + TileColumns(ac, rows) + TileColumn(ac, rows) == base + TileColumns(ac + 1, rows);
        ac := ac + 1;
      }
      assert TileColumns(ac, rows) == TileColumns(cols, rows);
    }

    method DrawBackground()
      requires Valid()
      modifies {backgroundLayer}`fillStyle, {backgroundLayer}`ops
      ensures !lightMode ==> backgroundLayer.View() == BackgroundOn(old(backgroundLayer.View()), paintLayer.width, paintLayer.height)
      ensures !lightMode ==> backgroundLayer.width == old(backgroundLayer.width) && backgroundLayer.height == old(backgroundLayer.height)
    {
      if lightMode {
        return;
      }
      var ctx := backgroundLayer;
      var width, height := paintLayer.width, paintLayer.height;
      var alphaCols := CeilDiv5(width);
      var alphaRows := CeilDiv5(height);
      ctx.SetFillStyle(CheckerWhite);
      ctx.FillRect(0, 0, width, height);
      ctx.SetFillStyle(CheckerDark);
      DrawTiles(ctx, alphaCols, alphaRows);
    }

    method ClearContext(ctx: Canvas)
      modifies ctx`ops
      ensures ctx.View() == ClearOn(old(ctx.View()), paintLayer.width, paintLayer.height)
    {
      // every layer has the paint layer's dimensions
      ctx.ClearRect(0, 0, paintLayer.width, paintLayer.height);
    }

    // -------------------------------------------------------------------
    // The overlay and repainting

    method ShowOverlay()
      modifies this`overlayVisible
      ensures overlayVisible
    {
      overlayVisible := true;
    }

    method StopSelectAnimation()
      modifies this`selectAnimating
      ensures !selectAnimating
    {
      selectAnimating := false;
    }

    method HideOverlay()
      modifies this`selectAnimating, this`overlayVisible, {fadeAnimation}`dead
      ensures CurrentScreen() == HideOverlayOn(old(CurrentScreen()))
    {
      StopSelectAnimation();
      overlayVisible := false;
      if fadeAnimation != null {
        fadeAnimation.Kill();
      }
    }

    method DrawSelectionAnimation()
      requires Valid()
      modifies this`selectAnimating, this`overlayVisible, {fadeAnimation}`dead, overlayLayer`ops, overlayLayer`strokeStyle
      ensures CurrentScreen() == SelectionOn(old(CurrentScreen()), old(CurrentConfig()))
    {
      if state.floatingLayer.None? {
        HideOverlay();
        return;
      }
      var f := state.floatingLayer.value;
      ShowOverlay();
      ClearContext(overlayLayer);
      overlayLayer.SetStrokeStyle(SelectionStyle);
      overlayLayer.StrokeRect(state.layerOffsetX * cellWidth, state.layerOffsetY * cellHeight,
                              f.width * cellWidth, f.height * cellHeight);
      if !lightMode && !selectAnimating && (fadeAnimation == null || fadeAnimation.dead) {
        selectAnimating := true;
      }
    }

    method DrawFloatingLayer()
      requires Valid()
      modifies this`selectAnimating, this`overlayVisible, {fadeAnimation}`dead
      modifies paintLayer`fillStyle, paintLayer`ops, overlayLayer`ops, overlayLayer`strokeStyle
      ensures CurrentScreen() == FloatingOn(old(CurrentScreen()), old(CurrentConfig()))
    {
      if state.floatingLayer.None? {
        return;
      }
      DrawImage(state.floatingLayer.value, paintLayer, state.layerOffsetX, state.layerOffsetY, true);
      DrawSelectionAnimation();
    }

    method Repaint()
      requires Valid()
      modifies this`selectAnimating, this`overlayVisible, {fadeAnimation}`dead
      modifies paintLayer`fillStyle, paintLayer`ops, overlayLayer`ops, overlayLayer`strokeStyle
      ensures CurrentScreen() == RepaintOn(old(CurrentScreen()), old(CurrentConfig()))
    {
      ClearContext(paintLayer);
      DrawImage(state.image, paintLayer, 0, 0, !lightMode);
      if state.floatingLayer.Some? {
        DrawFloatingLayer();
      } else {
        HideOverlay();
      }
    }
 
    /** The tool's `drawCursor` callback: each preview cell is plotted with `drawColor`. */
    method DrawPreview(edit: Edit)
      modifies paintLayer`fillStyle, paintLayer`ops
      ensures paintLayer.View() == PreviewOn(old(paintLayer.View()), CurrentBrush(), edit.preview, edit.color, !lightMode)
    {
      ghost var p0 := paintLayer.View();
      var i := 0;
      while i < |edit.preview|
        invariant 0 <= i <= |edit.preview|
        invariant paintLayer.View() == PreviewOn(p0, CurrentBrush(), edit.preview[..i], edit.color, !lightMode)
      {
        DrawColor(edit.preview[i].0, edit.preview[i].1, edit.color, paintLayer, !lightMode);
        assert edit.preview[..i + 1][..i] == edit.preview[..i];
        i := i + 1;
      }
      assert edit.preview[..i] == edit.preview;
    }

    /** `drawCursor(edit, col, row)`. */
    method DrawCursor(edit: Edit, col: int, row: int)
      requires Valid()
      modifies this`selectAnimating, this`overlayVisible, {fadeAnimation}`dead
      modifies paintLayer`fillStyle, paintLayer`ops, paintLayer`strokeStyle, overlayLayer`ops, overlayLayer`strokeStyle
      ensures CurrentScreen() == DrawCursorOn(old(CurrentScreen()), old(CurrentConfig()), edit, col, row)
    {
      match edit.cursor
      case Some(cursor) =>
        Repaint();
        if edit.showPreview {
          DrawPreview(edit);
        }
        paintLayer.SetStrokeStyle(CursorStyle);
        paintLayer.StrokeRect((col + cursor.offsetX) * cellWidth, (row + cursor.offsetY) * cellHeight,
                              cursor.width * cellWidth, cursor.height * cellHeight);
      case None =>
        if edit.isStarted {
          Repaint();
        }
    }

    /** `applyEdit`: the tool's `doEdit` turns the state into `edited`, then the cursor is drawn. */
    method ApplyEdit(edit: Edit, edited: CanvasState, col: int, row: int)
      requires Valid()
      modifies this`state, this`selectAnimating, this`overlayVisible, {fadeAnimation}`dead
      modifies paintLayer`fillStyle, paintLayer`ops, paintLayer`strokeStyle, overlayLayer`ops, overlayLayer`strokeStyle
      ensures state == edited
      ensures CurrentScreen() == DrawCursorOn(old(CurrentScreen()), old(CurrentConfig()).(state := edited), edit, col, row)
    {
      state := edited;
      DrawCursor(edit, col, row);
    }

    /** `onEditEnd`: the tool's `end` turns the state into `ended`, then the floating layer is drawn. */
    method OnEditEnd(ended: CanvasState)
      requires Valid()
      modifies this`state, this`selectAnimating, this`overlayVisible, {fadeAnimation}`dead
      modifies paintLayer`fillStyle, paintLayer`ops, overlayLayer`ops, overlayLayer`strokeStyle
      ensures state == ended
      ensures CurrentScreen() == FloatingOn(old(CurrentScreen()), old(CurrentConfig()).(state := ended))
    {
      state := ended;
      DrawFloatingLayer();
    }

    /**
     * `restore(state, repaint)`: a state of other dimensions is taken over
     * and repainted (the layers keep their size), and the flag asks for a
     * further repaint.
     */
    method Restore(restored: CanvasState, repaint: bool)
      requires Valid()
      modifies this`state, this`selectAnimating, this`overlayVisible, {fadeAnimation}`dead
      modifies paintLayer`fillStyle, paintLayer`ops, overlayLayer`ops, overlayLayer`strokeStyle
      ensures state == restored
      ensures var cfg := old(CurrentConfig()).(state := restored);
        var resized := restored.image.height != old(state.image.height) || restored.image.width != old(state.image.width);
        var s1 := if resized then RepaintOn(old(CurrentScreen()), cfg) else old(CurrentScreen());
        CurrentScreen() == if repaint then RepaintOn(s1, cfg) else s1
    {
      if restored.image.height != state.image.height || restored.image.width != state.image.width {
        state := restored;
        Repaint();
      } else {
        state := restored;
      }
      if repaint {
        Repaint();
      }
    }

    /** `updateBounds`: layout is a no-op; the image is drawn over the paint layer and the background redrawn. */
    method UpdateBounds()
      requires Valid()
      modifies paintLayer`fillStyle, paintLayer`ops, {backgroundLayer}`fillStyle, {backgroundLayer}`ops
      ensures paintLayer.View() == DrawImageOn(old(paintLayer.View()), CurrentBrush(), state.image, 0, 0, !lightMode)
      ensures !lightMode ==> backgroundLayer.View() == BackgroundOn(old(backgroundLayer.View()), paintLayer.width, paintLayer.height)
    {
      DrawImage(state.image, paintLayer, 0, 0, !lightMode);
      DrawBackground();
    }

    /** `setCellDimensions(width, height)`: both are truncated with `| 0`, and every layer is resized. */
    method SetCellDimensions(width: real, height: real)
      requires Valid()
      modifies this`cellWidth, this`cellHeight, paintLayer`width, paintLayer`height
      modifies overlayLayer`width, overlayLayer`height, {backgroundLayer}`width, {backgroundLayer}`height
      ensures Valid()
      ensures cellWidth == ToInt32(width) && cellHeight == ToInt32(height)
      ensures paintLayer.width == cellWidth * state.image.width && paintLayer.height == cellHeight * state.image.height
      ensures overlayLayer.width == paintLayer.width && overlayLayer.height == paintLayer.height
      ensures !lightMode ==> backgroundLayer.width == paintLayer.width && backgroundLayer.height == paintLayer.height
    {
      cellWidth := ToInt32(width);
      cellHeight := ToInt32(height);
      var canvasWidth := cellWidth * state.image.width;
      var canvasHeight := cellHeight * state.image.height;
      paintLayer.width := canvasWidth;
      paintLayer.height := canvasHeight;
      overlayLayer.width := canvasWidth;
      overlayLayer.height := canvasHeight;
      if !lightMode {
        backgroundLayer.width := canvasWidth;
        backgroundLayer.height := canvasHeight;
      }
    }

    /**
     * `showResizeOverlay()` at clock `now`: outside light mode the previous
     * fade is killed before a new one (delay 750, duration 500) starts, so
     * at most one is alive.
     */
    method ShowResizeOverlay(now: int)
      modifies this`fadeAnimation, this`overlayVisible, this`selectAnimating, {fadeAnimation}`dead
      ensures lightMode ==> fadeAnimation == old(fadeAnimation) && overlayVisible == old(overlayVisible)
      ensures lightMode ==> selectAnimating == old(selectAnimating)
      ensures lightMode && fadeAnimation != null ==> fadeAnimation.dead == old(fadeAnimation.dead)
      ensures !lightMode ==> old(fadeAnimation) != null ==> old(fadeAnimation).dead
      ensures !lightMode ==> fadeAnimation != null && fresh(fadeAnimation) &&
                             fadeAnimation.View() == FadeState(now + 750 + 500, false) &&
                             fadeAnimation.draws == [FullOpacity]
      ensures !lightMode ==> overlayVisible && !selectAnimating
    {
      if lightMode {
        return;
      }
      if fadeAnimation != null {
        fadeAnimation.Kill();
      }
      ShowOverlay();
      StopSelectAnimation();
      fadeAnimation := new Fade(now, 750, 500);
    }

    // -------------------------------------------------------------------
    // Listeners and gestures

    method InitDragSurface()
      requires Valid()
      modifies this`gesture, this`listeners
      ensures Valid() && gesture != null
      ensures old(gesture) != null ==> gesture == old(gesture) && listeners == old(listeners)
      ensures old(gesture) == null ==>
                fresh(gesture) && gesture.Snapshot() == Initial && gesture.handlers == map[] && gesture.log == [] &&
                listeners == old(listeners) + {HoverMove}
    {
      if gesture == null {
        gesture := new GestureState();
        listeners := listeners + {HoverMove};
      }
    }

    /** `down`, `up`, `drag`, `move` and `leave`: subscribe the handler for that gesture type. */
    method Subscribe(kind: GestureType, handler: HandlerId)
      requires Valid()
      modifies this`gesture, this`listeners, {gesture}`handlers
      ensures Valid() && gesture != null
      ensures old(gesture) != null ==>
                gesture == old(gesture) && listeners == old(listeners) && gesture.handlers == old(gesture.handlers)[kind := handler]
      ensures old(gesture) == null ==>
                fresh(gesture) && gesture.Snapshot() == Initial && gesture.handlers == map[kind := handler] &&
                gesture.log == [] && listeners == old(listeners) + {HoverMove}
    {
      InitDragSurface();
      gesture.Subscribe(kind, handler);
    }

    /** `startDrag()`: leave hover mode for drag mode. */
    method StartDrag()
      requires Valid() && gesture != null
      modifies this`listeners
      ensures Valid()
      ensures listeners == old(listeners) - {HoverMove} + DragMode(touchOnly) == DragMode(touchOnly)
    {
      listeners := listeners - {HoverMove};
      listeners := listeners + {DragMove};
      listeners := listeners + {DragUp};
      if touchOnly {
        listeners := listeners + {TouchEnd};
        listeners := listeners + {TouchCancel};
      } else {
        listeners := listeners + {DragLeave};
      }
    }

    /** `endDrag()`: back to hover mode, whichever mode was active. */
    method EndDrag()
      requires Valid()
      modifies this`listeners
      ensures Valid()
      ensures listeners == old(listeners) + {HoverMove} - {DragMove, DragUp, DragLeave}
                           - (if touchOnly then {TouchEnd, TouchCancel} else {})
      ensures listeners == HoverMode
    {
      listeners := listeners + {HoverMove};
      listeners := listeners - {DragMove};
      listeners := listeners - {DragUp};
      listeners := listeners - {DragLeave};
      if touchOnly {
        listeners := listeners - {TouchEnd};
        listeners := listeners - {TouchCancel};
      } else {
        listeners := listeners - {DragLeave};
      }
    }

    /**
     * `removeMouseListeners()`: stops both animations and ends any drag,
     * which registers the hover listener again.
     */
    method RemoveMouseListeners()
      requires Valid()
      modifies this`selectAnimating, {fadeAnimation}`dead, this`listeners
      ensures Valid()
      ensures !selectAnimating && (fadeAnimation != null ==> fadeAnimation.dead)
      ensures listeners == HoverMode
    {
      StopSelectAnimation();
      if fadeAnimation != null {
        fadeAnimation.Kill();
      }
      EndDrag();
    }

    /** The pointer-down listener of the paint and overlay layers. */
    method PointerDown(col: int, row: int)
      requires Valid() && gesture != null
      modifies this`listeners, gesture`last, gesture`isDown, gesture`log
      ensures Valid() && listeners == DragMode(touchOnly)
      ensures gesture.Snapshot() == Step(old(gesture.Snapshot()), RawDown, col, row).m
      ensures gesture.log == old(gesture.log) + Deliver(gesture.handlers, Step(old(gesture.Snapshot()), RawDown, col, row).fired)
    {
      StartDrag();
      gesture.Handle(RawDown, col, row);
    }

    /** The pointer-up (or touchend) listener of drag mode. */
    method UpHandler(col: int, row: int)
      requires Valid() && gesture != null
      modifies this`listeners, gesture`last, gesture`isDown, gesture`log
      ensures Valid() && listeners == HoverMode
      ensures gesture.Snapshot() == Step(old(gesture.Snapshot()), RawUp, col, row).m
      ensures gesture.log == old(gesture.log) + Deliver(gesture.handlers, Step(old(gesture.Snapshot()), RawUp, col, row).fired)
    {
      EndDrag();
      gesture.Handle(RawUp, col, row);
    }

    /** The pointer-leave (or touchcancel) listener of drag mode. */
    method LeaveHandler(col: int, row: int)
      requires Valid() && gesture != null
      modifies this`listeners, gesture`last, gesture`isDown, gesture`log
      ensures Valid() && listeners == HoverMode
      ensures gesture.Snapshot() == Step(old(gesture.Snapshot()), RawLeave, col, row).m
      ensures gesture.log == old(gesture.log) + Deliver(gesture.handlers, Step(old(gesture.Snapshot()), RawLeave, col, row).fired)
    {
      EndDrag();
      gesture.Handle(RawLeave, col, row);
    }

    /** The pointer-move listener of drag mode. */
    method MoveHandler(col: int, row: int, buttons: nat)
      requires gesture != null
      modifies gesture`last, gesture`isDown, gesture`log
      ensures var o := DragMoveStep(old(gesture.Snapshot()), state.image.width, state.image.height, PointerMove(col, row, buttons));
        gesture.Snapshot() == o.m && gesture.log == old(gesture.log) + Deliver(gesture.handlers, o.fired)
    {
      ghost var m0 := gesture.Snapshot();
      if 0 <= col && 0 <= row && col < state.image.width && row < state.image.height {
        // bit 0 of `buttons` is the primary button
        ghost var o1 := if buttons % 2 == 1 then Step(m0, RawDown, col, row) else Outcome(m0, []);
        if buttons % 2 == 1 {
          gesture.Handle(RawDown, col, row);
        }
        gesture.Handle(RawMove, col, row);
        DeliverAppend(gesture.handlers, o1.fired, Step(o1.m, RawMove, col, row).fired);
      }
    }

    /** The document pointer-move listener of hover mode. */
    method HoverHandler(col: int, row: int)
      requires gesture != null
      modifies gesture`last, gesture`isDown, gesture`isHover, gesture`log
      ensures var o := Hover(old(gesture.Snapshot()), state.image.width, state.image.height, col, row);
        gesture.Snapshot() == o.m && gesture.log == old(gesture.log) + Deliver(gesture.handlers, o.fired)
    {
      if 0 <= col && 0 <= row && col < state.image.width && row < state.image.height {
        gesture.Handle(RawMove, col, row);
        gesture.isHover := true;
      } else if gesture.isHover {
        gesture.isHover := false;
        gesture.Handle(RawLeave, -1, -1);
      }
    }
  }
}
