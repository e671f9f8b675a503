/**
 * The input router of canvasGrid.ts: which document listeners are active
 * (hover mode or drag mode), and what the hover and drag-move listeners
 * forward to the gesture state machine once a pointer position has been
 * turned into a cell.
 */
module Routing {
  import opened Optional
  import opened Gestures

  /** The document-level listeners the grid registers. */
  datatype Listener =
    | HoverMove    // the hover handler on the pointer-move event
    | DragMove     // the drag-move handler on the pointer-move event
    | DragUp       // the up handler on the pointer-up event
    | DragLeave    // the leave handler on the pointer-leave event
    | TouchEnd     // the up handler on "touchend"
    | TouchCancel  // the leave handler on "touchcancel"

  const HoverMode: set<Listener> := {HoverMove}

  /** Drag mode; `touchOnly` is a touch platform without pointer events. */
  function DragMode(touchOnly: bool): set<Listener> {
    if touchOnly then {DragMove, DragUp, TouchEnd, TouchCancel} else {DragMove, DragUp, DragLeave}
  }

  /** Before the first subscription no listener is active; afterwards exactly one mode is. */
  predicate ModeOk(listeners: set<Listener>, touchOnly: bool) {
    listeners == {} || listeners == HoverMode || listeners == DragMode(touchOnly)
  }

  predicate InBounds(width: int, height: int, col: int, row: int) {
    0 <= col < width && 0 <= row < height
  }

  /** The hover handler, for a pointer over cell (col, row) of a width by height image. */
  function Hover(m: Machine, width: int, height: int, col: int, row: int): (o: Outcome)
    ensures InBounds(width, height, col, row) ==>
              o.m.isHover && o.fired == Step(m, RawMove, col, row).fired &&
              o.m == Step(m, RawMove, col, row).m.(isHover := true)
    ensures !InBounds(width, height, col, row) && m.isHover ==>
              !o.m.isHover && !o.m.isDown && o.m.last == Some(Pos(-1, -1)) && o.fired == [Firing(Leave, -1, -1)]
    ensures !InBounds(width, height, col, row) && !m.isHover ==> o == Outcome(m, [])
  {
    if InBounds(width, height, col, row) then
      var o := Step(m, RawMove, col, row);
      Outcome(o.m.(isHover := true), o.fired)
    else if m.isHover then
      Step(m.(isHover := false), RawLeave, -1, -1)
    else
      Outcome(m, [])
  }

  function HoverRun(m: Machine, width: int, height: int, cells: seq<Pos>): Outcome
    decreases |cells|
  {
    if cells == [] then Outcome(m, [])
    else
      var o1 := Hover(m, width, height, cells[0].col, cells[0].row);
      var o2 := HoverRun(o1.m, width, height, cells[1..]);
      Outcome(o2.m, o1.fired + o2.fired)
  }

  /**
   * Leaving the grid while hovering fires Leave(-1, -1) exactly once, and
   * further moves outside fire nothing until the pointer re-enters.
   */
  lemma {:induction false} LeaveFiresOnceOutside(m: Machine, width: int, height: int, cells: seq<Pos>)
    requires cells != []
    requires forall i :: 0 <= i < |cells| ==> !InBounds(width, height, cells[i].col, cells[i].row)
    ensures HoverRun(m, width, height, cells).fired == if m.isHover then [Firing(Leave, -1, -1)] else []
    ensures !HoverRun(m, width, height, cells).m.isHover
    decreases |cells|
  {
    var o1 := Hover(m, width, height, cells[0].col, cells[0].row);
    if |cells| == 1 {
      assert cells[1..] == [];
      assert o1.fired + [] == o1.fired;
    } else {
      LeaveFiresOnceOutside(o1.m, width, height, cells[1..]);
      assert o1.fired + [] == o1.fired;
    }
  }

  /** A pointer move while dragging; bit 0 of `buttons` is the primary button. */
  datatype PointerMove = PointerMove(col: int, row: int, buttons: nat)

  /** The drag-move handler: a move outside the image is ignored; a pressed move injects Down first. */
  function DragMoveStep(m: Machine, width: int, height: int, p: PointerMove): (o: Outcome)
    ensures o.m.isHover == m.isHover
    ensures !InBounds(width, height, p.col, p.row) ==> o == Outcome(m, [])
    ensures o.m.isDown == (m.isDown || (InBounds(width, height, p.col, p.row) && p.buttons % 2 == 1))
    ensures (Firing(Down, p.col, p.row) in o.fired) <==>
              (InBounds(width, height, p.col, p.row) && p.buttons % 2 == 1 && !m.isDown)
    ensures forall f :: f in o.fired ==> f.col == p.col && f.row == p.row && f.kind in {Down, Move, Drag}
    // an injected Down records the cell, so the Move that follows it is a no-op
    ensures InBounds(width, height, p.col, p.row) && p.buttons % 2 == 1 && !m.isDown ==>
              o == Outcome(m.(last := Some(Pos(p.col, p.row)), isDown := true), [Firing(Down, p.col, p.row)])
    // otherwise the move is exactly a raw Move: Drag if down, Move if not, nothing to the same cell
    ensures InBounds(width, height, p.col, p.row) && !(p.buttons % 2 == 1 && !m.isDown) ==>
              o == Step(m, RawMove, p.col, p.row)
  {
    if InBounds(width, height, p.col, p.row) then
      var o1 := if p.buttons % 2 == 1 then Step(m, RawDown, p.col, p.row) else Outcome(m, []);
      var o2 := Step(o1.m, RawMove, p.col, p.row);
      Outcome(o2.m, o1.fired + o2.fired)
    else
      Outcome(m, [])
  }

  function DragRun(m: Machine, width: int, height: int, moves: seq<PointerMove>): Outcome
    decreases |moves|
  {
    if moves == [] then Outcome(m, [])
    else
      var o1 := DragMoveStep(m, width, height, moves[0]);
      var o2 := DragRun(o1.m, width, height, moves[1..]);
      Outcome(o2.m, o1.fired + o2.fired)
  }

  function CountKind(kind: GestureType, fs: seq<Firing>): nat
    decreases |fs|
  {
    if fs == [] then 0 else (if fs[0].kind == kind then 1 else 0) + CountKind(kind, fs[1..])
  }

  lemma {:induction false} CountKindAppend(kind: GestureType, a: seq<Firing>, b: seq<Firing>)
    ensures CountKind(kind, a + b) == CountKind(kind, a) + CountKind(kind, b)
    decreases |a|
  {
    if a == [] {
      assert a + b == b;
    } else {
      assert (a + b)[1..] == a[1..] + b;
      CountKindAppend(kind, a[1..], b);
    }
  }

  lemma {:induction false} CountKindAbsent(kind: GestureType, fs: seq<Firing>)
    requires forall f :: f in fs ==> f.kind != kind
    ensures CountKind(kind, fs) == 0
    decreases |fs|
  {
    if fs != [] {
      assert fs[0] in fs;
      CountKindAbsent(kind, fs[1..]);
    }
  }

  /**
   * However many pressed moves arrive while dragging, at most one Down
   * fires, and none if the pointer was already down.
   */
  lemma {:induction false} PressedMovesFireAtMostOneDown(m: Machine, width: int, height: int, moves: seq<PointerMove>)
    ensures CountKind(Down, DragRun(m, width, height, moves).fired) <= if m.isDown then 0 else 1
    ensures m.isDown ==> DragRun(m, width, height, moves).m.isDown
    decreases |moves|
  {
    if moves != [] {
      var o1 := DragMoveStep(m, width, height, moves[0]);
      var o2 := DragRun(o1.m, width, height, moves[1..]);
      PressedMovesFireAtMostOneDown(o1.m, width, height, moves[1..]);
      CountKindAppend(Down, o1.fired, o2.fired);
      DownAtMostOncePerMove(m, width, height, moves[0]);
      if Firing(Down, moves[0].col, moves[0].row) !in o1.fired {
        assert forall f :: f in o1.fired ==> f.kind != Down;
        CountKindAbsent(Down, o1.fired);
      }
    }
  }

  /** A single pressed move fires Down at most once. */
  lemma DownAtMostOncePerMove(m: Machine, width: int, height: int, p: PointerMove)
    ensures CountKind(Down, DragMoveStep(m, width, height, p).fired) <= 1
  {
    if InBounds(width, height, p.col, p.row) {
      var oa := if p.buttons % 2 == 1 then Step(m, RawDown, p.col, p.row) else Outcome(m, []);
      var ob := Step(oa.m, RawMove, p.col, p.row);
      CountKindAppend(Down, oa.fired, ob.fired);
      assert forall f :: f in ob.fired ==> f.kind != Down;
      CountKindAbsent(Down, ob.fired);
      if oa.fired != [] {
        assert oa.fired == [oa.fired[0]];
        assert CountKind(Down, oa.fired[1..]) == 0;
      }
    }
  }
}
