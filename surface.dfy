/**
 * A drawing surface (an HTML canvas with its 2D context), modelled as the
 * sequence of drawing commands issued on it plus the two pieces of context
 * state those commands depend on: the current fill and stroke styles.
 */
module Surface {

  /** A CSS colour string, as assigned to `fillStyle` and `strokeStyle`. */
  type Style = string

  /** The colour a fresh 2D context starts with for both fill and stroke. */
  const DefaultStyle: Style := "#000000"

  /** One drawing command; `Fill` and `Stroke` record the style in force when they were issued. */
  datatype Op =
    | Fill(x: int, y: int, w: int, h: int, style: Style)
    | Clear(x: int, y: int, w: int, h: int)
    | Stroke(x: int, y: int, w: int, h: int, style: Style)

  /** The observable value of a context: current styles and every command issued so far. */
  datatype Pen = Pen(fill: Style, stroke: Style, ops: seq<Op>)

  /** A canvas element together with its 2D context. */
  class Canvas {
    var width: int
    var height: int
    var fillStyle: Style
    var strokeStyle: Style
    var ops: seq<Op>

    /** A new canvas has the HTML default size of 300 by 150 pixels and has drawn nothing. */
    constructor ()
      ensures width == 300 && height == 150
      ensures View() == Pen(DefaultStyle, DefaultStyle, [])
    {
      width, height := 300, 150;
      fillStyle, strokeStyle := DefaultStyle, DefaultStyle;
      ops := [];
    }

    function View(): Pen
      reads this
    {
      Pen(fillStyle, strokeStyle, ops)
    }

    method SetFillStyle(s: Style)
      modifies this`fillStyle
      ensures View() == old(View()).(fill := s)
    {
      fillStyle := s;
    }

    method SetStrokeStyle(s: Style)
      modifies this`strokeStyle
      ensures View() == old(View()).(stroke := s)
    {
      strokeStyle := s;
    }

    method FillRect(x: int, y: int, w: int, h: int)
      modifies this`ops
      ensures View() == old(View()).(ops := old(ops) + [Fill(x, y, w, h, fillStyle)])
    {
      ops := ops + [Fill(x, y, w, h, fillStyle)];
    }

    method ClearRect(x: int, y: int, w: int, h: int)
      modifies this`ops
      ensures View() == old(View()).(ops := old(ops) + [Clear(x, y, w, h)])
    {
      ops := ops + [Clear(x, y, w, h)];
    }

    method StrokeRect(x: int, y: int, w: int, h: int)
      modifies this`ops
      ensures View() == old(View()).(ops := old(ops) + [Stroke(x, y, w, h, strokeStyle)])
    {
      ops := ops + [Stroke(x, y, w, h, strokeStyle)];
    }
  }
}
