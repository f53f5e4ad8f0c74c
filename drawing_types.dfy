/** Values the drawing canvas works with: optional settings, colours and surfaces. */
module DrawingTypes {

  /** A setting the canvas leaves `undefined` until it is first assigned. */
  datatype Option<T> = None | Some(value: T)

  /** A CSS colour string, as handed to the 2D context's `strokeStyle`. */
  type Color = string

  /** The colour erase mode paints with; a segment drawn in it is recorded on the redo stack. */
  const White: Color := "white"

  /** The line width erase mode switches to. */
  const EraserWidth: int := 15

  /** The widest stroke the width button reaches before it wraps round to 1. */
  const MaxStrokeWidth: int := 10

  /**
   * The contents of the drawing surface, abstracted from its pixels: the blank
   * surface, or a line segment stroked over an earlier surface with the colour
   * and width that were current when it was drawn. A snapshot (an `ImageData`
   * or an off-screen canvas) is a copy of a surface, so it is a value of this
   * type as well.
   */
  datatype Surface =
    | Blank
    | Stroked(under: Surface, fromX: int, fromY: int, toX: int, toY: int,
              color: Option<Color>, width: Option<int>)

  /** The top of a stack kept as a sequence whose last element is the top. */
  function Top<T>(s: seq<T>): (top: T)
    requires |s| > 0
  {
    s[|s| - 1]
  }

  /** A stack without its top element, as left behind by `pop`. */
  function Popped<T>(s: seq<T>): (rest: seq<T>)
    requires |s| > 0
    ensures |rest| == |s| - 1 && rest + [Top(s)] == s
  {
    s[..|s| - 1]
  }
}
