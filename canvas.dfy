/**
 * The `Canvas` object: the fields its methods and listeners update in place,
 * with each method proved to leave the state that the matching function of
 * `CanvasState` gives.
 */
module CanvasObject {
  import opened DrawingTypes
  import CanvasState

  class Canvas {
    var surface: Surface            // the pixels of the canvas element
    var isDrawing: bool
    var x: int
    var y: int
    var currentState: Surface
    var strokeClickCount: int
    var canvasStates: seq<Surface>
    var recentlyDeletedStates: seq<Surface>
    var isErasing: bool
    var currentColor: Option<Color>
    var currentLineWidth: Option<int>
    var prevColor: Option<Color>
    var prevLineWidth: Option<int>

    /** The object's fields as one value. */
    function View(): CanvasState.State
      reads this
    {
      CanvasState.State(surface, isDrawing, x, y, currentState, strokeClickCount,
                        canvasStates, recentlyDeletedStates, isErasing,
                        currentColor, currentLineWidth, prevColor, prevLineWidth)
    }

    /** The object invariant: the stroke button's count stays in 1..10. */
    ghost predicate Valid()
      reads this
    {
      CanvasState.ClickCountInRange(View())
    }

    constructor ()
      ensures Valid() && View() == CanvasState.Init()
    {
      surface := Blank;
      isDrawing := false;
      x, y := 0, 0;
      currentState := surface;
      strokeClickCount := 1;
      canvasStates, recentlyDeletedStates := [], [];
      isErasing := false;
      currentColor, currentLineWidth := None, None;
      prevColor, prevLineWidth := None, None;
    }

    method SetCoords(offsetX: int, offsetY: int)
      requires Valid()
      modifies this
      ensures Valid() && View() == CanvasState.SetCoords(old(View()), offsetX, offsetY)
    {
      isDrawing := true;
      x := offsetX;
      y := offsetY;
    }

    method Draw(offsetX: int, offsetY: int)
      requires Valid()
      modifies this
      ensures Valid() && View() == CanvasState.Draw(old(View()), offsetX, offsetY)
    {
      if !isDrawing {
        return;
      }
      surface := Stroked(surface, x, y, offsetX, offsetY, currentColor, currentLineWidth);
      x := offsetX;
      y := offsetY;
      if currentColor == Some(White) {
        recentlyDeletedStates := recentlyDeletedStates + [surface];
      } else {
        canvasStates := canvasStates + [surface];
      }
    }

    method Undo()
      requires Valid()
      modifies this
      ensures Valid() && View() == CanvasState.Undo(old(View()))
    {
      if |canvasStates| == 0 {
        return;
      }
      var top := canvasStates[|canvasStates| - 1];
      canvasStates := canvasStates[..|canvasStates| - 1];
      recentlyDeletedStates := recentlyDeletedStates + [top];
      if |canvasStates| == 0 {
        // `putImageData(undefined)` throws: the rest of the handler does not run
        return;
      }
      surface := canvasStates[|canvasStates| - 1];
      currentState := surface;
    }

    method Redo()
      requires Valid()
      modifies this
      ensures Valid() && View() == CanvasState.Redo(old(View()))
    {
      if |recentlyDeletedStates| == 0 {
        return;
      }
      surface := recentlyDeletedStates[|recentlyDeletedStates| - 1];
      currentState := surface;
      canvasStates := canvasStates + [surface];
      recentlyDeletedStates := recentlyDeletedStates[..|recentlyDeletedStates| - 1];
    }

    method StopDrawing()
      requires Valid()
      modifies this
      ensures Valid() && View() == CanvasState.StopDrawing(old(View()))
    {
      isDrawing := false;
    }

    method ResizeCanvas(savedState: Surface)
      requires Valid()
      modifies this
      ensures Valid() && View() == CanvasState.ResizeCanvas(old(View()), savedState)
    {
      surface := savedState;
    }

    method SetLineWidth(width: Option<int>)
      requires Valid()
      modifies this
      ensures Valid() && View() == CanvasState.SetLineWidth(old(View()), width)
    {
      currentLineWidth := width;
      ResizeCanvas(currentState);
    }

    method SetLineColor(color: Option<Color>)
      requires Valid()
      modifies this
      ensures Valid() && View() == CanvasState.SetLineColor(old(View()), color)
    {
      currentColor := color;
      ResizeCanvas(currentState);
    }

    method ToggleEraser()
      requires Valid()
      modifies this
      ensures Valid() && View() == CanvasState.ToggleEraser(old(View()))
    {
      if !isErasing {
        isErasing := true;
        currentColor := Some(White);
        SetLineWidth(Some(EraserWidth));
      } else {
        isErasing := false;
        SetLineColor(prevColor);
        SetLineWidth(prevLineWidth);
      }
    }

    /** The mouse-up listener. */
    method OnMouseUp()
      requires Valid()
      modifies this
      ensures Valid() && View() == CanvasState.MouseUp(old(View()))
    {
      StopDrawing();
      currentState := surface;
      if !isErasing {
        prevColor := currentColor;
        prevLineWidth := currentLineWidth;
      }
    }

    /** The stroke button's click listener. */
    method OnStrokeClick()
      requires Valid()
      modifies this
      ensures Valid() && View() == CanvasState.StrokeClick(old(View()))
    {
      var next := (strokeClickCount + 1) % 11;
      strokeClickCount := if next == 0 then 1 else next;
      SetLineWidth(Some(strokeClickCount));
    }

    /** The colour picker's change listener, given the picked hexadecimal digits. */
    method OnColorChange(hex: string)
      requires Valid()
      modifies this
      ensures Valid() && View() == CanvasState.PickColor(old(View()), hex)
    {
      SetLineColor(Some("#" + hex));
    }

    /** The window's resize listener. */
    method OnWindowResize()
      requires Valid()
      modifies this
      ensures Valid() && View() == CanvasState.ResizeCanvas(old(View()), old(currentState))
    {
      ResizeCanvas(currentState);
    }
  }
}
