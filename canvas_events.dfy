/**
 * The canvas driven by its event listeners: one event per listener the
 * constructor registers, and a run of events from any state. The invariants
 * here hold in every state the listeners can reach.
 */
module CanvasEvents {
  import opened DrawingTypes
  import CanvasState

  type State = CanvasState.State

  /** What the listeners receive; `ColorPicked` carries the picker's hexadecimal digits. */
  datatype Event =
    | PointerDown(offsetX: int, offsetY: int)
    | PointerMove(offsetX: int, offsetY: int)
    | PointerUp
    | WindowResized
    | StrokeButton
    | EraseButton
    | UndoButton
    | RedoButton
    | ColorPicked(hex: string)

  /**
   * What holds in every reachable state: the click count stays in 1..10, the
   * remembered paint colour is never "white", and outside erase mode the
   * current colour is not "white" either (so only erase mode routes drawn
   * snapshots to the redo stack).
   */
  predicate Consistent(s: State)
  {
    CanvasState.ClickCountInRange(s) &&
    s.prevColor != Some(White) &&
    (!s.isErasing ==> s.currentColor != Some(White))
  }

  /** The listener an event reaches, applied to the state. */
  function Step(s: State, e: Event): (r: State)
    ensures Consistent(s) ==> Consistent(r)
    ensures CanvasState.StackTotal(r) ==
            CanvasState.StackTotal(s) + (if e.PointerMove? && s.isDrawing then 1 else 0)
  {
    match e
    case PointerDown(px, py) => CanvasState.SetCoords(s, px, py)
    case PointerMove(px, py) => CanvasState.Draw(s, px, py)
    case PointerUp => CanvasState.MouseUp(s)
    case WindowResized => CanvasState.ResizeCanvas(s, s.currentState)
    case StrokeButton => CanvasState.StrokeClick(s)
    case EraseButton => CanvasState.ToggleEraser(s)
    case UndoButton => CanvasState.Undo(s)
    case RedoButton => CanvasState.Redo(s)
    case ColorPicked(hex) => CanvasState.PickColor(s, hex)
  }

  /** The state after the events, dispatched in order. */
  function Run(s: State, events: seq<Event>): (r: State)
    decreases |events|
  {
    if events == [] then s else Run(Step(s, events[0]), events[1..])
  }

  lemma {:induction false} RunKeepsConsistent(s: State, events: seq<Event>)
    requires Consistent(s)
    ensures Consistent(Run(s, events))
    decreases |events|
  {
    if events != [] {
      RunKeepsConsistent(Step(s, events[0]), events[1..]);
    }
  }

  /** Every state the listeners can reach from the constructed canvas is consistent. */
  lemma ReachableIsConsistent(events: seq<Event>)
    ensures Consistent(Run(CanvasState.Init(), events))
  {
    RunKeepsConsistent(CanvasState.Init(), events);
  }

  /**
   * No event ever discards a snapshot: the two stacks together only grow, and
   * by at most one per event, so the history grows without bound.
   */
  lemma {:induction false} RunNeverDropsSnapshots(s: State, events: seq<Event>)
    ensures CanvasState.StackTotal(s) <= CanvasState.StackTotal(Run(s, events))
                                     <= CanvasState.StackTotal(s) + |events|
    decreases |events|
  {
    if events != [] {
      RunNeverDropsSnapshots(Step(s, events[0]), events[1..]);
    }
  }

  /**
   * In every reachable state outside erase mode, a drawn segment is recorded
   * on the undo stack; only erase mode can send it to the redo stack.
   */
  lemma PaintModeDrawsAreUndoable(events: seq<Event>, offsetX: int, offsetY: int)
    ensures var s := Run(CanvasState.Init(), events);
            var r := CanvasState.Draw(s, offsetX, offsetY);
            s.isDrawing && !s.isErasing ==>
              r.canvasStates == s.canvasStates + [r.surface] &&
              r.recentlyDeletedStates == s.recentlyDeletedStates
  {
    ReachableIsConsistent(events);
  }
}
