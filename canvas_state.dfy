/**
 * The drawing canvas as a value: every field the `Canvas` object keeps, plus
 * the surface its canvas element shows, and one function per operation that
 * gives the state after it. These functions are the specification the
 * methods of `CanvasObject.Canvas` are proved against.
 */
module CanvasState {
  import opened DrawingTypes

  datatype State = State(
    surface: Surface,                   // what the canvas element shows
    isDrawing: bool,
    x: int,
    y: int,
    currentState: Surface,              // repainted after every resize
    strokeClickCount: int,
    canvasStates: seq<Surface>,         // undo stack, top last
    recentlyDeletedStates: seq<Surface>, // redo stack, top last
    isErasing: bool,                    // `undefined` at first, which reads as false
    currentColor: Option<Color>,
    currentLineWidth: Option<int>,
    prevColor: Option<Color>,
    prevLineWidth: Option<int>)

  /** Snapshots held by the two history stacks together. */
  function StackTotal(s: State): nat
  {
    |s.canvasStates| + |s.recentlyDeletedStates|
  }

  /** The state the constructor leaves behind, before any event. */
  function Init(): (s: State)
    ensures s.surface == Blank && s.currentState == s.surface
    ensures !s.isDrawing && s.x == 0 && s.y == 0
    ensures s.strokeClickCount == 1
    ensures s.canvasStates == [] && s.recentlyDeletedStates == []
    ensures !s.isErasing && s.currentColor.None? && s.currentLineWidth.None?
    ensures s.prevColor.None? && s.prevLineWidth.None?
  {
    State(Blank, false, 0, 0, Blank, 1, [], [], false, None, None, None, None)
  }

  /**
   * JavaScript's `%` on integers: a remainder of division truncated toward
   * zero, so it is smaller than the divisor in magnitude and takes the sign
   * of the dividend.
   */
  function JsRemainder(a: int, b: int): (r: int)
    requires b > 0
    ensures exists q :: a == b * q + r
    ensures a >= 0 ==> 0 <= r < b
    ensures a < 0 ==> -b < r <= 0
  {
    if a >= 0 then
      assert a == b * (a / b) + a % b;
      a % b
    else
      assert -a == b * ((-a) / b) + (-a) % b;
      assert a == b * (-((-a) / b)) + -((-a) % b);
      -((-a) % b)
  }

  /** The click counter's range, which every listener keeps. */
  predicate ClickCountInRange(s: State)
  {
    1 <= s.strokeClickCount <= MaxStrokeWidth
  }

  /** The stroke button's `(strokeClickCount + 1) % 11 || 1`, where a remainder of 0 is falsy. */
  function NextStrokeCount(n: int): (r: int)
    ensures 1 <= n <= MaxStrokeWidth ==> r == if n == MaxStrokeWidth then 1 else n + 1
    ensures n >= 0 ==> 1 <= r <= MaxStrokeWidth
  {
    var m := JsRemainder(n + 1, 11);
    if m == 0 then 1 else m
  }

  /** Mouse-down: start drawing from the event's position. */
  function SetCoords(s: State, offsetX: int, offsetY: int): (r: State)
    ensures r.isDrawing && r.x == offsetX && r.y == offsetY
    ensures r == s.(isDrawing := r.isDrawing, x := r.x, y := r.y)
  {
    s.(isDrawing := true, x := offsetX, y := offsetY)
  }

  /**
   * Mouse-move: when drawing, stroke a segment from the last position to the
   * event's, move there, and push one copy of the new surface: onto the redo
   * stack when the colour is "white", onto the undo stack otherwise.
   */
  function Draw(s: State, offsetX: int, offsetY: int): (r: State)
    ensures !s.isDrawing ==> r == s
    ensures s.isDrawing ==> r.x == offsetX && r.y == offsetY
    ensures s.isDrawing ==>
      r.surface == Stroked(s.surface, s.x, s.y, offsetX, offsetY, s.currentColor, s.currentLineWidth)
    ensures s.isDrawing && s.currentColor == Some(White) ==>
      r.recentlyDeletedStates == s.recentlyDeletedStates + [r.surface] && r.canvasStates == s.canvasStates
    ensures s.isDrawing && s.currentColor != Some(White) ==>
      r.canvasStates == s.canvasStates + [r.surface] && r.recentlyDeletedStates == s.recentlyDeletedStates
    ensures StackTotal(r) == StackTotal(s) + (if s.isDrawing then 1 else 0)
    ensures r == s.(surface := r.surface, x := r.x, y := r.y,
                    canvasStates := r.canvasStates, recentlyDeletedStates := r.recentlyDeletedStates)
  {
    if !s.isDrawing then s
    else
      var painted := Stroked(s.surface, s.x, s.y, offsetX, offsetY, s.currentColor, s.currentLineWidth);
      var moved := s.(surface := painted, x := offsetX, y := offsetY);
      if s.currentColor == Some(White) then
        moved.(recentlyDeletedStates := s.recentlyDeletedStates + [painted])
      else
        moved.(canvasStates := s.canvasStates + [painted])
  }

  /**
   * Undo: move the top of the undo stack onto the redo stack, then restore the
   * new top and record it as the current state. When the undo stack is left
   * empty, `putImageData` receives `undefined` and throws, so the surface and
   * the current state keep what they were.
   */
  function Undo(s: State): (r: State)
    ensures s.canvasStates == [] ==> r == s
    ensures s.canvasStates != [] ==>
      r.canvasStates + [Top(s.canvasStates)] == s.canvasStates &&
      r.recentlyDeletedStates == s.recentlyDeletedStates + [Top(s.canvasStates)]
    ensures s.canvasStates != [] && r.canvasStates != [] ==>
      r.surface == Top(r.canvasStates) && r.currentState == r.surface
    ensures r.canvasStates == [] ==> r.surface == s.surface && r.currentState == s.currentState
    ensures StackTotal(r) == StackTotal(s)
    ensures r == s.(surface := r.surface, currentState := r.currentState,
                    canvasStates := r.canvasStates, recentlyDeletedStates := r.recentlyDeletedStates)
  {
    if |s.canvasStates| == 0 then s
    else
      var top := Top(s.canvasStates);
      var moved := s.(canvasStates := Popped(s.canvasStates),
                      recentlyDeletedStates := s.recentlyDeletedStates + [top]);
      if |moved.canvasStates| == 0 then moved
      else
        var restored := Top(moved.canvasStates);
        moved.(surface := restored, currentState := restored)
  }

  /**
   * Redo: restore the top of the redo stack, record it as the current state,
   * push a fresh capture of the restored surface onto the undo stack, then
   * pop the redo stack.
   */
  function Redo(s: State): (r: State)
    ensures s.recentlyDeletedStates == [] ==> r == s
    ensures s.recentlyDeletedStates != [] ==>
      var top := Top(s.recentlyDeletedStates);
      r.recentlyDeletedStates + [top] == s.recentlyDeletedStates &&
      r.surface == top && r.currentState == top &&
      r.canvasStates == s.canvasStates + [top]
    ensures StackTotal(r) == StackTotal(s)
    ensures r == s.(surface := r.surface, currentState := r.currentState,
                    canvasStates := r.canvasStates, recentlyDeletedStates := r.recentlyDeletedStates)
  {
    if |s.recentlyDeletedStates| == 0 then s
    else
      var restored := Top(s.recentlyDeletedStates);
      var captured := s.(surface := restored, currentState := restored);
      captured.(canvasStates := s.canvasStates + [captured.surface],
                recentlyDeletedStates := Popped(s.recentlyDeletedStates))
  }

  /** Pointer released: no longer drawing. */
  function StopDrawing(s: State): (r: State)
    ensures !r.isDrawing
    ensures r == s.(isDrawing := r.isDrawing)
  {
    s.(isDrawing := false)
  }

  /**
   * Refit the canvas to the window, which clears it, and draw the saved
   * snapshot back: the surface becomes that snapshot.
   */
  function ResizeCanvas(s: State, savedState: Surface): (r: State)
    ensures r.surface == savedState
    ensures r == s.(surface := r.surface)
  {
    s.(surface := savedState)
  }

  /** Set the line width, then resize and repaint from the current state. */
  function SetLineWidth(s: State, width: Option<int>): (r: State)
    ensures r.currentLineWidth == width && r.surface == s.currentState
    ensures r == s.(currentLineWidth := r.currentLineWidth, surface := r.surface)
  {
    ResizeCanvas(s.(currentLineWidth := width), s.currentState)
  }

  /** Set the line colour, then resize and repaint from the current state. */
  function SetLineColor(s: State, color: Option<Color>): (r: State)
    ensures r.currentColor == color && r.surface == s.currentState
    ensures r == s.(currentColor := r.currentColor, surface := r.surface)
  {
    ResizeCanvas(s.(currentColor := color), s.currentState)
  }

  /**
   * Enter erase mode (colour "white", width 15) or leave it (the colour and
   * width recorded at the last mouse-up in paint mode come back).
   */
  function ToggleEraser(s: State): (r: State)
    ensures r.isErasing == !s.isErasing
    ensures !s.isErasing ==> r.currentColor == Some(White) && r.currentLineWidth == Some(EraserWidth)
    ensures s.isErasing ==> r.currentColor == s.prevColor && r.currentLineWidth == s.prevLineWidth
    ensures r.prevColor == s.prevColor && r.prevLineWidth == s.prevLineWidth
    ensures r.surface == s.currentState
    ensures r == s.(isErasing := r.isErasing, currentColor := r.currentColor,
                    currentLineWidth := r.currentLineWidth, surface := r.surface)
  {
    if !s.isErasing then
      SetLineWidth(s.(isErasing := true, currentColor := Some(White)), Some(EraserWidth))
    else
      var recolored := SetLineColor(s.(isErasing := false), s.prevColor);
      SetLineWidth(recolored, recolored.prevLineWidth)
  }

  /**
   * The mouse-up handler: stop drawing, record the surface as the current
   * state and, in paint mode only, remember the colour and width in use.
   */
  function MouseUp(s: State): (r: State)
    ensures !r.isDrawing && r.currentState == s.surface
    ensures !s.isErasing ==> r.prevColor == s.currentColor && r.prevLineWidth == s.currentLineWidth
    ensures s.isErasing ==> r.prevColor == s.prevColor && r.prevLineWidth == s.prevLineWidth
    ensures r == s.(isDrawing := r.isDrawing, currentState := r.currentState,
                    prevColor := r.prevColor, prevLineWidth := r.prevLineWidth)
  {
    var stopped := StopDrawing(s);
    var saved := stopped.(currentState := stopped.surface);
    if !saved.isErasing then
      saved.(prevColor := saved.currentColor, prevLineWidth := saved.currentLineWidth)
    else saved
  }

  /**
   * The stroke button: advance the click count through 1..10, wrapping 10 to
   * 1, and make it the line width.
   */
  function StrokeClick(s: State): (r: State)
    ensures 1 <= s.strokeClickCount <= MaxStrokeWidth ==>
      r.strokeClickCount == if s.strokeClickCount == MaxStrokeWidth then 1 else s.strokeClickCount + 1
    ensures s.strokeClickCount >= 0 ==> 1 <= r.strokeClickCount <= MaxStrokeWidth
    ensures r.currentLineWidth == Some(r.strokeClickCount)
    ensures r.surface == s.currentState
    ensures r == s.(strokeClickCount := r.strokeClickCount, currentLineWidth := r.currentLineWidth,
                    surface := r.surface)
  {
    var count := NextStrokeCount(s.strokeClickCount);
    SetLineWidth(s.(strokeClickCount := count), Some(count))
  }

  /** The colour picker's change event: the picked hexadecimal digits, prefixed by '#', become the colour. */
  function PickColor(s: State, hex: string): (r: State)
    ensures r.currentColor.Some? && |r.currentColor.value| == |hex| + 1
    ensures r.currentColor.value[0] == '#' && r.currentColor.value[1..] == hex
    ensures r.currentColor != Some(White)
    ensures r.surface == s.currentState
    ensures r == s.(currentColor := r.currentColor, surface := r.surface)
  {
    var color := "#" + hex;
    assert color[0] != White[0];
    SetLineColor(s, Some(color))
  }
}
