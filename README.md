# Sprite-editor canvas grid, modelled in Dafny

This project models the deciding core of `CanvasGrid`, the pixel-grid canvas
of the Arcade sprite editor (`pxt-arcade/share/src/sprite-editor/canvasGrid.ts`).
The DOM and the clock are stripped away. What is left:

- **The gesture state machine** (`GestureState`). Raw pointer inputs Up, Down,
  Move and Leave become the gestures Up, Down, Move, Drag and Leave. A Down
  while pressed is ignored, and so is a Move to the cell already recorded.
  Up and Leave always release. Each gesture type has one subscribed handler,
  and the last subscriber wins. Module `Gestures`: the pure transition `Step`,
  and the class `GestureState`, whose `Handle` is proved to follow `Step`; a
  ghost `log` records each handler call.
- **Input routing** (module `Routing`, and the listener methods of
  `Grid.CanvasGrid`). The hover handler filters by bounds and fires one
  synthetic `Leave(-1, -1)` when the pointer leaves the image. The drag-move
  handler filters by bounds and injects a Down when the primary button bit
  of `buttons` is set. The document listeners are an abstract set that is in
  hover mode or in drag mode, switched by `startDrag` and `endDrag`.
- **Rendering** (module `Render`, and the drawing methods of
  `Grid.CanvasGrid`). Each canvas is a `Surface.Canvas` that records the
  commands issued on it (`Fill`, `Clear`, `Stroke`) with its current fill and
  stroke styles. `Render` gives the effect of `drawColor`, `drawImage`,
  `drawBackground`, `repaint` and `drawCursor` as functions of the surfaces'
  values. The class methods, with their loops, are proved to follow them, and
  lemmas state what the functions guarantee.
- **Cell geometry**: `setCellDimensions` truncates with JavaScript's `| 0`
  (`Numbers.ToInt32`) and sizes every layer to the image.
- **The fade lifecycle** (module `Animation`). Frames are driven by an
  abstract clock `Frame(now)`, and `dead` is a terminal state.

Pointer positions are taken as integer cells. In the source, the conversion
(`clientEventToCell`) derives both the cell width and the cell height from the
paint layer's on-screen *width*.

Points where the code behaves in a way a reader might not expect:

- While dragging, the code does filter out-of-bounds moves
  (canvasGrid.ts:445). The drag-move handler ignores them.
- Before the first event, `lastCol`/`lastRow` are `undefined`. So the first
  Move fires wherever it lands, even at (-1, -1). The model has
  `last: Option<Pos>`.
- `restore` with an image of other dimensions only repaints (`resizeGrid`
  just calls `repaint`). It does not resize the layers.
- `removeMouseListeners` ends with `endDrag`, which registers the hover
  listener again. So after a teardown the grid is in hover mode
  (`Grid.CanvasGrid.RemoveMouseListeners` ensures `listeners == HoverMode`).

## Model

| member | source | states |
|---|---|---|
| `Gestures.Step` | pxt-arcade/share/src/sprite-editor/canvasGrid.ts:554-585 | At most one gesture fires. It carries the new position, which is recorded before firing. When nothing fires, nothing changes. A Down while pressed is a no-op; otherwise Down presses and fires Down. A Move to the recorded cell is a no-op. A Move to another cell fires Drag if pressed, else Move, and keeps `isDown`. Up and Leave always release and fire their own type. `isHover` is untouched. |
| `Gestures.Deliver` | pxt-arcade/share/src/sprite-editor/canvasGrid.ts:596-600 | Each fired gesture whose type has a handler calls exactly that handler with the fired position. A type with no subscriber makes no call. |
| `Gestures.RepeatedMovesFireOnlyFirst` | pxt-arcade/share/src/sprite-editor/canvasGrid.ts:568-577 | In any run of identical Moves, only the first can change state or fire. |
| `Gestures.MovesInPlaceAreInert` | pxt-arcade/share/src/sprite-editor/canvasGrid.ts:569 | Moves to the recorded cell, however many, change nothing and fire nothing. |
| `Gestures.NoSecondDownBeforeRelease` | pxt-arcade/share/src/sprite-editor/canvasGrid.ts:556-583 | For every input sequence from every state, the fired gestures are bracketed. Down fires only while released, and never twice without an Up or Leave between. Drag fires only while pressed, Move only while released. |
| `Gestures.GestureState.constructor` | pxt-arcade/share/src/sprite-editor/canvasGrid.ts:545-552 | No position is recorded yet, the pointer is neither down nor hovering, and no handler is subscribed. |
| `Gestures.GestureState.Handle` | pxt-arcade/share/src/sprite-editor/canvasGrid.ts:554-585 | The new state is `Step` of the old one. The log grows by exactly the handler calls `Deliver` makes for the fired gestures. |
| `Gestures.GestureState.Subscribe` | pxt-arcade/share/src/sprite-editor/canvasGrid.ts:587-589 | The type's handler is replaced; the other types keep theirs. |
| `Gestures.GestureState.Update` | pxt-arcade/share/src/sprite-editor/canvasGrid.ts:591-594 | Records the position. |
| `Gestures.GestureState.Fire` | pxt-arcade/share/src/sprite-editor/canvasGrid.ts:596-600 | Calls the type's handler, if any, with the recorded position. |
| `Routing.Hover` | pxt-arcade/share/src/sprite-editor/canvasGrid.ts:456-466 | An in-bounds cell is forwarded as a Move and sets `isHover`. An outside cell while hovering clears `isHover` and fires `Leave(-1, -1)`, which also releases. An outside cell while not hovering does nothing. |
| `Routing.LeaveFiresOnceOutside` | pxt-arcade/share/src/sprite-editor/canvasGrid.ts:456-466 | Over any non-empty run of outside positions, `Leave(-1, -1)` fires exactly once if the pointer was hovering and never otherwise. Hovering ends either way. |
| `Routing.DragMoveStep` | pxt-arcade/share/src/sprite-editor/canvasGrid.ts:443-450 | An outside move is ignored. The pointer ends pressed iff it was pressed or the move is inside with the primary button bit set. Down fires iff that bit is set, the move is inside and the pointer was not down. It then fires alone: the injected Down has recorded the cell, so the Move that follows is a no-op. Any other inside move is exactly a raw Move: Drag to a new cell while down, Move to a new cell while up, nothing to the same cell. |
| `Routing.PressedMovesFireAtMostOneDown` | pxt-arcade/share/src/sprite-editor/canvasGrid.ts:443-450 | Over any sequence of drag moves, at most one Down fires, and none if the pointer was already down. |
| `Routing.DownAtMostOncePerMove` | pxt-arcade/share/src/sprite-editor/canvasGrid.ts:446-449 | One drag move fires Down at most once, though it calls `handle` twice. |
| `Render.DrawColorOn` | pxt-arcade/share/src/sprite-editor/canvasGrid.ts:113-125 | Colour 0 on a transparent grid draws nothing. Anything else fills the cell's rectangle `(col*cellWidth, row*cellHeight, cellWidth, cellHeight)` exactly once. A colour k with a palette entry fills with `palette[k-1]`. Colour 0 on an opaque grid fills with the light background. An index with no entry keeps the current fill style. |
| `Render.BlankTransparentImageDrawsNothing` | pxt-arcade/share/src/sprite-editor/canvasGrid.ts:309-315 | On a transparent grid, drawing an all-zero image leaves the surface exactly as it was. |
| `Render.OpaqueImageFillsEveryCell` | pxt-arcade/share/src/sprite-editor/canvasGrid.ts:309-315 | On an opaque grid, drawing a width × height image appends exactly width × height commands and keeps the earlier ones. The command at column-major position `c*height + r` fills cell (left+c, top+r) with that cell's colour, or the light background for colour 0. |
| `Render.ImageOnlyFills` | pxt-arcade/share/src/sprite-editor/canvasGrid.ts:309-315 | Drawing an image keeps every earlier command and adds only fills. |
| `Render.CheckerboardIsOddTiles` | pxt-arcade/share/src/sprite-editor/canvasGrid.ts:317-333 | The background is one white fill of the whole layer, then tiles. A 5-pixel tile is drawn at tile (c, r) iff `0 <= c < ceil(width/5)`, `0 <= r < ceil(height/5)` and `c + r` is odd, and nothing but tiles follows the white fill. |
| `Render.PreviewOnlyFills` | pxt-arcade/share/src/sprite-editor/canvasGrid.ts:83-87 | Plotting the tool's preview cells through `drawColor` keeps every earlier command and adds only fills. |
| `Render.CeilDiv5` | pxt-arcade/share/src/sprite-editor/canvasGrid.ts:320-321 | The result is the least k with `n <= 5*k`, i.e. `Math.ceil(n / 5)`. |
| `Render.RepaintClearsThenFills` | pxt-arcade/share/src/sprite-editor/canvasGrid.ts:66-71 | A repaint appends one clear of the whole layer, then only fills. The overlay is visible iff there is a floating layer. Without one, the marching ants and the fade are stopped and the overlay's commands are untouched. |
| `Render.RepaintBlankImage` | pxt-arcade/share/src/sprite-editor/canvasGrid.ts:66-71 | Repainting an all-zero image with no floating layer adds only the clear on a transparent grid. On an opaque grid it then adds one light-background fill per cell, in column-major order. |
| `Render.CursorOutlineIsLast` | pxt-arcade/share/src/sprite-editor/canvasGrid.ts:78-94 | With a cursor, the full repaint comes first: its commands are a prefix, starting with one clear of the layer. The preview cells add only fills. The last command is the outline in the cursor colour around the cursor rectangle shifted to the pointer. The overlay and animation flags are the repaint's. Without a cursor, it is exactly a repaint if the tool has started and otherwise changes nothing. |
| `Animation.FrameStep` | pxt-arcade/share/src/sprite-editor/canvasGrid.ts:620-632 | A dead fade does nothing. Before the end time a frame makes one fading draw. At or after it, the fade dies and makes the finishing draw. |
| `Animation.DeadFadeNeverDraws` | pxt-arcade/share/src/sprite-editor/canvasGrid.ts:620-621 | Once dead, by `kill` or by finishing, no later frame draws or changes anything. |
| `Animation.FadesUntilEnd` | pxt-arcade/share/src/sprite-editor/canvasGrid.ts:623-627 | Frames before the end time each make one fading draw, and the fade stays alive. |
| `Animation.FinishesOnceAndLast` | pxt-arcade/share/src/sprite-editor/canvasGrid.ts:628-631 | The finishing draw happens at most once, only for a fade that was alive, and is the very last draw. After it the fade is dead. Any frame at or after the end time makes it happen. |
| `Animation.Fade.constructor` | pxt-arcade/share/src/sprite-editor/canvasGrid.ts:609-618 | Start is `now + delay` and end is `start + duration`. The fade is alive and has made one full-opacity draw. |
| `Animation.Fade.Frame` | pxt-arcade/share/src/sprite-editor/canvasGrid.ts:620-632 | State and draws follow `FrameStep`. |
| `Animation.Fade.Kill` | pxt-arcade/share/src/sprite-editor/canvasGrid.ts:634-636 | The fade is dead. |
| `Numbers.TruncateTowardZero` | pxt-arcade/share/src/sprite-editor/canvasGrid.ts:209-210 | The result is the integer between 0 and x that is less than 1 away from x. |
| `Numbers.ToInt32` | pxt-arcade/share/src/sprite-editor/canvasGrid.ts:209-210 | `x \| 0` is a signed 32-bit value congruent mod 2^32 to x truncated toward zero. It equals the truncation whenever that fits in 32 bits. |
| `Image.Bitmap.Set` | pxt-arcade/share/src/sprite-editor/canvasGrid.ts:109 | The written cell reads back the colour, every other cell is unchanged, and so are the dimensions. |
| `Grid.CanvasGrid.constructor` | pxt-arcade/share/src/sprite-editor/canvasGrid.ts:27-46 | Cells are 16 × 16. The paint layer has a fresh canvas's 300 × 150 size, and `Valid()` holds: the overlay, and the background layer if any, have the paint layer's size. The background layer exists iff not in light mode. In light mode the paint fill style is the light background. The overlay is hidden, and there is no animation, gesture state or listener. |
| `Grid.CanvasGrid.DrawColor` | pxt-arcade/share/src/sprite-editor/canvasGrid.ts:113-125 | The context ends as `DrawColorOn` says. |
| `Grid.CanvasGrid.WriteColor` | pxt-arcade/share/src/sprite-editor/canvasGrid.ts:108-111 | The image cell is set to the colour, then that cell is drawn on the paint layer with the grid's transparency. |
| `Grid.CanvasGrid.DrawImage` | pxt-arcade/share/src/sprite-editor/canvasGrid.ts:309-315 | The nested column/row loop leaves the context as `DrawImageOn`, cell (c, r) drawn at (left+c, top+r). |
| `Grid.CanvasGrid.DrawBackground` | pxt-arcade/share/src/sprite-editor/canvasGrid.ts:317-333 | Nothing in light mode. Otherwise the background layer ends as `BackgroundOn` for the paint layer's size, and its size is unchanged. |
| `Grid.CanvasGrid.DrawTileColumn` | pxt-arcade/share/src/sprite-editor/canvasGrid.ts:327-331 | The inner loop appends the dark tiles of tile column `ac`, in row order, for exactly the rows r with `ac + r` odd (`TileColumn`). Styles are untouched. |
| `Grid.CanvasGrid.DrawTiles` | pxt-arcade/share/src/sprite-editor/canvasGrid.ts:326-332 | The outer loop appends the tile columns one after another (`TileColumns`). Styles are untouched. |
| `Grid.CanvasGrid.ClearContext` | pxt-arcade/share/src/sprite-editor/canvasGrid.ts:390-393 | Clears a rectangle the paint layer's size on the given context. |
| `Grid.CanvasGrid.ShowOverlay` | pxt-arcade/share/src/sprite-editor/canvasGrid.ts:190-192 | The overlay is visible. |
| `Grid.CanvasGrid.StopSelectAnimation` | pxt-arcade/share/src/sprite-editor/canvasGrid.ts:519-525 | The marching-ants timer is cleared. |
| `Grid.CanvasGrid.HideOverlay` | pxt-arcade/share/src/sprite-editor/canvasGrid.ts:194-202 | Marching ants stopped, overlay hidden, any fade killed. |
| `Grid.CanvasGrid.DrawSelectionAnimation` | pxt-arcade/share/src/sprite-editor/canvasGrid.ts:364-388 | Without a floating layer, hides the overlay. Otherwise it shows the overlay, clears it and strokes the selection outline. The marching ants start unless in light mode, already running, or a fade is alive. |
| `Grid.CanvasGrid.DrawFloatingLayer` | pxt-arcade/share/src/sprite-editor/canvasGrid.ts:355-362 | Nothing without a floating layer. Otherwise the layer is drawn transparently at its offset, then the selection outline. |
| `Grid.CanvasGrid.Repaint` | pxt-arcade/share/src/sprite-editor/canvasGrid.ts:66-71 | Paint layer, overlay, visibility, marching ants and fade end as `RepaintOn`. That is: clear, image, then the floating layer or else the overlay hidden. |
| `Grid.CanvasGrid.DrawCursor` | pxt-arcade/share/src/sprite-editor/canvasGrid.ts:78-94 | With a cursor: repaint, the tool's preview cells if it previews, then the cursor outline. Without one: a repaint if the tool has started, else nothing. |
| `Grid.CanvasGrid.DrawPreview` | pxt-arcade/share/src/sprite-editor/canvasGrid.ts:84-86 | Each preview cell, in the tool's order, is drawn with `drawColor` in the tool's colour and the grid's transparency (`PreviewOn`). |
| `Grid.CanvasGrid.ApplyEdit` | pxt-arcade/share/src/sprite-editor/canvasGrid.ts:73-76 | The edited state is taken over, then the cursor is drawn from it. |
| `Grid.CanvasGrid.OnEditEnd` | pxt-arcade/share/src/sprite-editor/canvasGrid.ts:304-307 | The ended state is taken over, then the floating layer is drawn from it. |
| `Grid.CanvasGrid.Restore` | pxt-arcade/share/src/sprite-editor/canvasGrid.ts:127-139 | The state is replaced. A change of dimensions repaints once, and the flag repaints once more. |
| `Grid.CanvasGrid.UpdateBounds` | pxt-arcade/share/src/sprite-editor/canvasGrid.ts:272-282 | The image is drawn over the paint layer without clearing, and the background is redrawn. |
| `Grid.CanvasGrid.SetCellDimensions` | pxt-arcade/share/src/sprite-editor/canvasGrid.ts:208-224 | Both arguments go through `\| 0`. The paint and overlay layers, and the background layer unless in light mode, become exactly `cellWidth*width × cellHeight*height` of the image. So all layers keep sharing one size (`Valid()`). |
| `Grid.CanvasGrid.ShowResizeOverlay` | pxt-arcade/share/src/sprite-editor/canvasGrid.ts:141-188 | Nothing in light mode. Otherwise: the previous fade is dead, a fresh fade with delay 750 and duration 500 has drawn at full opacity, the overlay shows and the marching ants are stopped. |
| `Grid.CanvasGrid.InitDragSurface` | pxt-arcade/share/src/sprite-editor/canvasGrid.ts:395-406 | The first call creates the gesture state and registers the hover listener. Later calls change nothing. |
| `Grid.CanvasGrid.Subscribe` | pxt-arcade/share/src/sprite-editor/canvasGrid.ts:247-270 | After lazy initialisation, the handler replaces the one for its type. |
| `Grid.CanvasGrid.StartDrag` | pxt-arcade/share/src/sprite-editor/canvasGrid.ts:468-481 | The hover listener is removed and the drag listeners are added. On a touch-only platform they are touchend/touchcancel instead of pointer-leave. From every mode the result is drag mode. |
| `Grid.CanvasGrid.EndDrag` | pxt-arcade/share/src/sprite-editor/canvasGrid.ts:483-498 | The hover listener is added and every drag listener removed. From every mode the result is hover mode. |
| `Grid.CanvasGrid.RemoveMouseListeners` | pxt-arcade/share/src/sprite-editor/canvasGrid.ts:293-298 | Marching ants stopped, fade killed, and the listeners left in hover mode. |
| `Grid.CanvasGrid.PointerDown` | pxt-arcade/share/src/sprite-editor/canvasGrid.ts:408-415 | Enters drag mode, then handles a raw Down. |
| `Grid.CanvasGrid.UpHandler` | pxt-arcade/share/src/sprite-editor/canvasGrid.ts:425-432 | Back to hover mode, then handles a raw Up. |
| `Grid.CanvasGrid.LeaveHandler` | pxt-arcade/share/src/sprite-editor/canvasGrid.ts:434-441 | Back to hover mode, then handles a raw Leave. |
| `Grid.CanvasGrid.MoveHandler` | pxt-arcade/share/src/sprite-editor/canvasGrid.ts:443-454 | The gesture state and handler calls follow `DragMoveStep` for the image's bounds. |
| `Grid.CanvasGrid.HoverHandler` | pxt-arcade/share/src/sprite-editor/canvasGrid.ts:456-466 | The gesture state and handler calls follow `Hover` for the image's bounds. |

## Left out

- `clientEventToCell` and `clientCoord`: these read the layout, scroll offsets and touch lists, and use floating-point division and `Math.floor`. Cells enter the model as integers.
- `setGridDimensions`: floating-point aspect-ratio arithmetic. `setCellDimensions` takes reals, and NaN and infinities are not modelled.
- The opacity values of `Fade` (`1 - slope*(now - start)`), `Date.now`, `setTimeout` and `requestAnimationFrame`. Frames are calls of `Frame(now)` at any abstract clock, including before the delay has passed.
- The fade's draw callback in `showResizeOverlay`: grid lines, toast and text. Also its final call of `drawFloatingLayer` on the terminal draw. Draws are only logged by kind.
- The marching-ants interval body (dash offset, re-stroking). Only whether the timer is set is modelled.
- Line width, dash pattern, dash offset and `globalAlpha` of the selection outline, and overlay styling beyond a visible flag.
- Canvas semantics: in a browser, resizing a canvas also resets its bitmap and context state, and DOM coercion applies to negative sizes. Neither is modelled.
- `render`, element creation, `bindEvents`, `addEventListener`/`removeEventListener`, `stopPropagation` and `preventDefault`. Document listeners are an abstract set.
- `layoutCanvas` and `setEyedropperMouse`: their bodies are commented out.
- `outerWidth`/`outerHeight` (layout reads), and the accessors `image` and `bitmap`.
- `onEditStart` and the tool's own logic (`doEdit`, `start`, `end`, `drawCursor`). The state these produce is a parameter, and a tool is a value listing its cursor, flags, colour and preview cells.
- The `scale`, `mouseCol` and `mouseRow` fields: nothing here reads them.
- Grid.CanvasGrid.HoverHandler: requires the gesture state to exist. In the source, `removeMouseListeners` before any subscription registers the hover listener while `this.gesture` is still undefined. A pointer move then makes `hoverHandler` throw a TypeError, reading `this.gesture.handle` (canvasGrid.ts:459) or `this.gesture.isHover` (canvasGrid.ts:462). This follows from the code; it was not run.
- Grid.CanvasGrid.PointerDown: and the other drag-mode listeners require the gesture state to exist. The source registers them only after creating it.
