/**
 * The pointer gesture state machine (`GestureState` in canvasGrid.ts).
 *
 * It turns the raw inputs Up, Down, Move and Leave, each with a cell
 * position, into the semantic gestures Up, Down, Move, Drag and Leave, and
 * calls the single handler subscribed for each gesture type.  `Step` is the
 * transition as a function of the machine's state; the class `GestureState`
 * is the object the grid owns, whose `Handle` is proved to follow `Step`.
 */
module Gestures {
  import opened Optional

  datatype InputEvent = RawUp | RawDown | RawMove | RawLeave

  datatype GestureType = Up | Down | Move | Drag | Leave

  /** The identity of a subscribed callback. */
  type HandlerId = nat

  datatype Pos = Pos(col: int, row: int)

  /** A gesture the machine fires, with the position it passes to its handler. */
  datatype Firing = Firing(kind: GestureType, col: int, row: int)

  /** A call of a subscribed handler. */
  datatype Call = Call(handler: HandlerId, kind: GestureType, col: int, row: int)

  /**
   * The machine's state.  `last` is `None` until the first position is
   * recorded: the source leaves `lastCol`/`lastRow` undefined, so no
   * position equals it.
   */
  datatype Machine = Machine(last: Option<Pos>, isDown: bool, isHover: bool)

  datatype Outcome = Outcome(m: Machine, fired: seq<Firing>)

  const Initial: Machine := Machine(None, false, false)

  /** One call of `handle(event, col, row)`. */
  function Step(m: Machine, ev: InputEvent, col: int, row: int): (o: Outcome)
    ensures o.m.isHover == m.isHover
    ensures |o.fired| <= 1
    // the position is recorded before the gesture fires, so handlers see the new one
    ensures o.fired != [] ==> o.m.last == Some(Pos(col, row)) && o.fired[0].col == col && o.fired[0].row == row
    ensures o.fired == [] ==> o.m == m
    ensures ev == RawDown && m.isDown ==> o == Outcome(m, [])
    ensures ev == RawDown && !m.isDown ==> o.m.isDown && o.fired == [Firing(Down, col, row)]
    ensures ev == RawMove ==> (o.fired == [] <==> m.last == Some(Pos(col, row)))
    ensures ev == RawMove && o.fired != [] ==>
              o.m.isDown == m.isDown && o.fired == [Firing(if m.isDown then Drag else Move, col, row)]
    ensures ev == RawUp ==> !o.m.isDown && o.fired == [Firing(Up, col, row)]
    ensures ev == RawLeave ==> !o.m.isDown && o.fired == [Firing(Leave, col, row)]
  {
    var here := Some(Pos(col, row));
    match ev
    case RawUp => Outcome(m.(last := here, isDown := false), [Firing(Up, col, row)])
    case RawDown =>
      if !m.isDown then Outcome(m.(last := here, isDown := true), [Firing(Down, col, row)])
      else Outcome(m, [])
    case RawMove =>
      if m.last == here then Outcome(m, [])
      else Outcome(m.(last := here), [Firing(if m.isDown then Drag else Move, col, row)])
    case RawLeave => Outcome(m.(last := here, isDown := false), [Firing(Leave, col, row)])
  }

  /** The handler calls that firing `fired` makes: a type with no subscriber is skipped. */
  function Deliver(handlers: map<GestureType, HandlerId>, fired: seq<Firing>): (calls: seq<Call>)
    ensures |calls| <= |fired|
    ensures forall f :: f in fired && f.kind in handlers ==> Call(handlers[f.kind], f.kind, f.col, f.row) in calls
    ensures forall c :: c in calls ==>
              c.kind in handlers && c.handler == handlers[c.kind] && Firing(c.kind, c.col, c.row) in fired
  {
    if fired == [] then []
    else
      var f := fired[0];
      var rest := Deliver(handlers, fired[1..]);
      assert forall g :: g in fired ==> g == f || g in fired[1..];
      if f.kind in handlers then [Call(handlers[f.kind], f.kind, f.col, f.row)] + rest else rest
  }

  lemma {:induction false} DeliverAppend(handlers: map<GestureType, HandlerId>, a: seq<Firing>, b: seq<Firing>)
    ensures Deliver(handlers, a + b) == Deliver(handlers, a) + Deliver(handlers, b)
    decreases |a|
  {
    if a != [] {
      assert (a + b)[0] == a[0];
      assert (a + b)[1..] == a[1..] + b;
      DeliverAppend(handlers, a[1..], b);
    } else {
      assert a + b == b;
    }
  }

  datatype Raw = Raw(ev: InputEvent, col: int, row: int)

  /** A sequence of `handle` calls. */
  function Run(m: Machine, xs: seq<Raw>): (o: Outcome)
    decreases |xs|
  {
    if xs == [] then Outcome(m, [])
    else
      var o1 := Step(m, xs[0].ev, xs[0].col, xs[0].row);
      var o2 := Run(o1.m, xs[1..]);
      Outcome(o2.m, o1.fired + o2.fired)
  }

  /** Moves to the cell already recorded change nothing and fire nothing. */
  lemma {:induction false} MovesInPlaceAreInert(m: Machine, col: int, row: int, xs: seq<Raw>)
    requires m.last == Some(Pos(col, row))
    requires forall i :: 0 <= i < |xs| ==> xs[i] == Raw(RawMove, col, row)
    ensures Run(m, xs) == Outcome(m, [])
    decreases |xs|
  {
    if xs != [] {
      MovesInPlaceAreInert(m, col, row, xs[1..]);
    }
  }

  /** Of a run of identical moves only the first can fire. */
  lemma {:induction false} RepeatedMovesFireOnlyFirst(m: Machine, col: int, row: int, xs: seq<Raw>)
    requires xs != []
    requires forall i :: 0 <= i < |xs| ==> xs[i] == Raw(RawMove, col, row)
    ensures Run(m, xs) == Step(m, RawMove, col, row)
  {
    var o1 := Step(m, RawMove, col, row);
    MovesInPlaceAreInert(o1.m, col, row, xs[1..]);
    assert o1.fired + [] == o1.fired;
  }

  /**
   * What a fired sequence may look like starting with the pointer `pressed`
   * or not: Down only while released, Drag only while pressed, Move only
   * while released; Down presses, Up and Leave release.
   */
  ghost predicate Bracketed(pressed: bool, fs: seq<Firing>)
    decreases |fs|
  {
    if fs == [] then true
    else
      match fs[0].kind
      case Down => !pressed && Bracketed(true, fs[1..])
      case Up => Bracketed(false, fs[1..])
      case Leave => Bracketed(false, fs[1..])
      case Drag => pressed && Bracketed(pressed, fs[1..])
      case Move => !pressed && Bracketed(pressed, fs[1..])
  }

  /** Whatever the inputs, Down never fires twice without an Up or Leave in between. */
  lemma {:induction false} NoSecondDownBeforeRelease(m: Machine, xs: seq<Raw>)
    ensures Bracketed(m.isDown, Run(m, xs).fired)
    decreases |xs|
  {
    if xs != [] {
      var o1 := Step(m, xs[0].ev, xs[0].col, xs[0].row);
      var o2 := Run(o1.m, xs[1..]);
      NoSecondDownBeforeRelease(o1.m, xs[1..]);
      if o1.fired != [] {
        var fs := o1.fired + o2.fired;
        assert fs[0] == o1.fired[0];
        assert fs[1..] == o2.fired;
      } else {
        assert o1.fired + o2.fired == o2.fired;
      }
    }
  }

  /** The object the grid owns; `log` records every handler call it makes. */
  class GestureState {
    var last: Option<Pos>
    var isDown: bool
    var isHover: bool
    var handlers: map<GestureType, HandlerId>
    ghost var log: seq<Call>

    constructor ()
      ensures Snapshot() == Initial && handlers == map[] && log == []
    {
      last, isDown, isHover := None, false, false;
      handlers := map[];
      log := [];
    }

    function Snapshot(): Machine
      reads this
    {
      Machine(last, isDown, isHover)
    }

    method Handle(ev: InputEvent, col: int, row: int)
      modifies this`last, this`isDown, this`log
      ensures Snapshot() == Step(old(Snapshot()), ev, col, row).m
      ensures log == old(log) + Deliver(handlers, Step(old(Snapshot()), ev, col, row).fired)
    {
      match ev
      case RawUp =>
        Update(col, row);
        isDown := false;
        Fire(Up);
      case RawDown =>
        if !isDown {
          Update(col, row);
          isDown := true;
          Fire(Down);
        }
      case RawMove =>
        if last == Some(Pos(col, row)) {
          return;
        }
        Update(col, row);
        if isDown {
          Fire(Drag);
        } else {
          Fire(Move);
        }
      case RawLeave =>
        Update(col, row);
        isDown := false;
        Fire(Leave);
    }

    /** Last subscriber wins: the type's previous handler, if any, is replaced. */
    method Subscribe(kind: GestureType, handler: HandlerId)
      modifies this`handlers
      ensures handlers == old(handlers)[kind := handler]
    {
      handlers := handlers[kind := handler];
    }

    method Update(col: int, row: int)
      modifies this`last
      ensures last == Some(Pos(col, row))
    {
      last := Some(Pos(col, row));
    }

    method Fire(kind: GestureType)
      requires last.Some?
      modifies this`log
      ensures log == old(log) + Deliver(handlers, [Firing(kind, last.value.col, last.value.row)])
    {
      if kind in handlers {
        log := log + [Call(handlers[kind], kind, last.value.col, last.value.row)];
      }
    }
  }
}
