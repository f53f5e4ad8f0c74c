/** Properties that relate several canvas operations. */
module CanvasProperties {
  import opened DrawingTypes
  import opened CanvasState

  /** A stack's elements from the last to the first: the order `pop` hands them out. */
  function Reversed<T>(s: seq<T>): (r: seq<T>)
  {
    if s == [] then [] else Reversed(s[1..]) + [s[0]]
  }

  lemma {:induction false} ReversedLength<T>(s: seq<T>)
    ensures |Reversed(s)| == |s|
  {
    if s != [] {
      ReversedLength(s[1..]);
    }
  }

  // ----- History manager -----

  /**
   * Undo followed by redo gives back both stacks exactly, and shows the
   * snapshot that was on top of the undo stack.
   */
  lemma UndoThenRedo(s: State)
    requires s.canvasStates != []
    ensures var top := Top(s.canvasStates);
            Redo(Undo(s)) == s.(surface := top, currentState := top)
  {
  }

  /**
   * Redo followed by undo gives back both stacks exactly. The surface shows
   * the old undo top, or, when the undo stack was empty, the redone snapshot
   * (the undo's restore fails and leaves it in place).
   */
  lemma RedoThenUndo(s: State)
    requires s.recentlyDeletedStates != []
    ensures var r := Undo(Redo(s));
            r.canvasStates == s.canvasStates &&
            r.recentlyDeletedStates == s.recentlyDeletedStates &&
            r.surface == r.currentState &&
            r.surface == if s.canvasStates != [] then Top(s.canvasStates) else Top(s.recentlyDeletedStates)
  {
  }

  /** Undo pressed k times. */
  function UndoTimes(s: State, k: nat): (r: State)
  {
    if k == 0 then s else Undo(UndoTimes(s, k - 1))
  }

  /**
   * Undoing as many times as there are snapshots above `base` moves exactly
   * those snapshots onto the redo stack, the newest first.
   */
  lemma {:induction false} UndoTimesMoves(s: State, base: seq<Surface>, moved: seq<Surface>)
    requires s.canvasStates == base + moved
    ensures var r := UndoTimes(s, |moved|);
            r.canvasStates == base &&
            r.recentlyDeletedStates == s.recentlyDeletedStates + Reversed(moved)
    decreases |moved|
  {
    if moved != [] {
      assert s.canvasStates == (base + [moved[0]]) + moved[1..];
      UndoTimesMoves(s, base + [moved[0]], moved[1..]);
      UndoPops(UndoTimes(s, |moved| - 1));
    }
  }

  /** One undo on a non-empty stack, as the inductive steps here need it. */
  lemma UndoPops(t: State)
    requires t.canvasStates != []
    ensures Undo(t).canvasStates == Popped(t.canvasStates)
    ensures Undo(t).recentlyDeletedStates == t.recentlyDeletedStates + [Top(t.canvasStates)]
  {
  }

  /**
   * One undo with `m` on top of `base`: `m` leaves the undo stack, and the
   * surface shows the new top, or stays as it was when none is left.
   */
  lemma UndoOnTop(t: State, base: seq<Surface>, m: Surface)
    requires t.canvasStates == base + [m]
    ensures Undo(t).canvasStates == base
    ensures base != [] ==> Undo(t).surface == Top(base) && Undo(t).currentState == Undo(t).surface
    ensures base == [] ==> Undo(t).surface == t.surface && Undo(t).currentState == t.currentState
  {
    assert Popped(t.canvasStates) == base;
  }

  /**
   * After those undos the surface shows the top of `base`. When `base` is
   * empty it keeps the oldest of the moved snapshots, or, if only one was
   * moved, what it showed before: it is never cleared.
   */
  lemma {:induction false} UndoTimesShows(s: State, base: seq<Surface>, moved: seq<Surface>)
    requires s.canvasStates == base + moved && moved != []
    ensures var r := UndoTimes(s, |moved|);
            (base != [] ==> r.surface == Top(base) && r.currentState == r.surface) &&
            (base == [] && |moved| >= 2 ==> r.surface == moved[0] && r.currentState == r.surface) &&
            (base == [] && |moved| == 1 ==> r.surface == s.surface && r.currentState == s.currentState)
    decreases |moved|
  {
    var t := UndoTimes(s, |moved| - 1);
    assert s.canvasStates == (base + [moved[0]]) + moved[1..];
    UndoTimesMoves(s, base + [moved[0]], moved[1..]);
    UndoOnTop(t, base, moved[0]);
    if base == [] && |moved| >= 2 {
      UndoTimesShows(s, [moved[0]], moved[1..]);
    }
  }

  /** Mouse-moves over the given points, one after another. */
  function Draws(s: State, points: seq<(int, int)>): (r: State)
    decreases |points|
  {
    if points == [] then s else Draws(Draw(s, points[0].0, points[0].1), points[1..])
  }

  /**
   * While drawing in a paint colour, each mouse-move appends one snapshot to
   * the undo stack; the first one is the surface after the first segment.
   */
  lemma {:induction false} DrawsPushEach(s: State, points: seq<(int, int)>)
    requires s.isDrawing && s.currentColor != Some(White)
    decreases |points|
    ensures var r := Draws(s, points);
            |r.canvasStates| == |s.canvasStates| + |points| &&
            r.canvasStates[..|s.canvasStates|] == s.canvasStates &&
            r.recentlyDeletedStates == s.recentlyDeletedStates &&
            r.isDrawing && r.currentColor == s.currentColor &&
            (points != [] ==> r.canvasStates[|s.canvasStates|] == Draw(s, points[0].0, points[0].1).surface) &&
            (|points| == 1 ==> r.surface == Draw(s, points[0].0, points[0].1).surface)
  {
    if points != [] {
      var d := Draw(s, points[0].0, points[0].1);
      DrawsPushEach(d, points[1..]);
      var r := Draws(d, points[1..]);
      assert r.canvasStates[..|d.canvasStates|] == d.canvasStates;
      assert r.canvasStates[..|s.canvasStates|] == d.canvasStates[..|s.canvasStates|];
    }
  }

  /**
   * N segments drawn in a paint colour and then N undos leave the undo stack as
   * it was and the redo stack N snapshots longer. Starting from an empty
   * history the surface does not return to its earlier contents: it keeps the
   * first segment, because the last undo's restore fails.
   */
  lemma StrokesThenUndos(s: State, points: seq<(int, int)>)
    requires s.isDrawing && s.currentColor != Some(White)
    ensures var r := UndoTimes(Draws(s, points), |points|);
            r.canvasStates == s.canvasStates &&
            |r.recentlyDeletedStates| == |s.recentlyDeletedStates| + |points| &&
            (s.canvasStates == [] && points != [] ==>
               r.surface == Draw(s, points[0].0, points[0].1).surface && r.surface.Stroked?)
  {
    var d := Draws(s, points);
    DrawsPushEach(s, points);
    var pushed := d.canvasStates[|s.canvasStates|..];
    assert d.canvasStates == s.canvasStates + pushed;
    UndoTimesMoves(d, s.canvasStates, pushed);
    ReversedLength(pushed);
    if s.canvasStates == [] && points != [] {
      UndoTimesShows(d, [], pushed);
    }
  }

  /**
   * Redo does not give back what undo took off the surface: after a paint
   * stroke and then an erase stroke, undo followed by redo shows the paint
   * stroke again, not the erased surface the user saw before the undo.
   */
  lemma UndoRedoAfterEraseStroke(s: State, x1: int, y1: int, x2: int, y2: int, x3: int, y3: int)
    requires s.isDrawing && !s.isErasing && s.currentColor != Some(White)
    ensures var painted := MouseUp(Draw(s, x1, y1));
            var erased := Draw(SetCoords(ToggleEraser(painted), x2, y2), x3, y3);
            erased.surface != painted.surface &&
            Redo(Undo(erased)).surface == painted.surface
  {
  }

  // ----- Pen and mode state -----

  /** The stroke button pressed n times. */
  function StrokeClicks(s: State, n: nat): (r: State)
  {
    if n == 0 then s else StrokeClick(StrokeClicks(s, n - 1))
  }

  /** From the constructed canvas, n presses of the stroke button give width (n mod 10) + 1. */
  lemma {:induction false} StrokeClicksFromInit(n: nat)
    ensures StrokeClicks(Init(), n).strokeClickCount == n % MaxStrokeWidth + 1
    ensures n > 0 ==> StrokeClicks(Init(), n).currentLineWidth == Some(n % MaxStrokeWidth + 1)
  {
    if n > 0 {
      StrokeClicksFromInit(n - 1);
      var before := StrokeClicks(Init(), n - 1).strokeClickCount;
      assert StrokeClicks(Init(), n).strokeClickCount == if before == MaxStrokeWidth then 1 else before + 1;
      NextRemainder(n);
    }
  }

  /** How n mod 10 follows from (n - 1) mod 10. */
  lemma NextRemainder(n: nat)
    requires n > 0
    ensures n % MaxStrokeWidth == if (n - 1) % MaxStrokeWidth == MaxStrokeWidth - 1 then 0 else (n - 1) % MaxStrokeWidth + 1
  {
  }

  /** After a mouse-up nothing is drawn until the next mouse-down. */
  lemma DrawAfterMouseUpChangesNothing(s: State, offsetX: int, offsetY: int)
    ensures Draw(MouseUp(s), offsetX, offsetY) == MouseUp(s)
  {
  }

  /** A segment drawn right after a mouse-down starts at the mouse-down position. */
  lemma DrawStartsAtMouseDown(s: State, downX: int, downY: int, offsetX: int, offsetY: int)
    ensures var r := Draw(SetCoords(s, downX, downY), offsetX, offsetY);
            r.surface == Stroked(s.surface, downX, downY, offsetX, offsetY, s.currentColor, s.currentLineWidth)
  {
  }

  /**
   * Entering and leaving erase mode right after a paint-mode mouse-up gives
   * back exactly the state before: colour, width, mode and surface.
   */
  lemma EraseRoundTrip(s: State)
    requires !s.isErasing
    ensures ToggleEraser(ToggleEraser(MouseUp(s))) == MouseUp(s)
  {
  }

  /** Leaving erase mode restores what was remembered, whatever happened while erasing. */
  lemma LeavingEraseRestoresPaintSettings(s: State)
    requires !s.isErasing
    ensures var r := ToggleEraser(ToggleEraser(s));
            !r.isErasing && r.currentColor == s.prevColor && r.currentLineWidth == s.prevLineWidth
  {
  }

  /**
   * Leaving erase mode restores the settings remembered at the last paint-mode
   * mouse-up, not those in force when erase mode was entered: a colour picked
   * on the fresh canvas is lost by toggling erase mode on and off.
   */
  lemma ToggleTwiceAfterPickLosesColor(hex: string)
    ensures var picked := PickColor(Init(), hex);
            var r := ToggleEraser(ToggleEraser(picked));
            picked.currentColor == Some("#" + hex) &&
            !r.isErasing && r.currentColor == None && r.currentLineWidth == None
  {
  }

  // ----- Resize/restore -----

  /** A window resize after a completed stroke loses nothing from the surface. */
  lemma ResizeAfterMouseUpKeepsSurface(s: State)
    ensures var u := MouseUp(s);
            ResizeCanvas(u, u.currentState) == u
  {
  }
}
