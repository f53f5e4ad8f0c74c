# Drawing canvas state machine

A model of the `Canvas` class of a browser sketch tool. The class keeps
the pointer state, the pen settings (colour, width, erase mode, and the
paint settings remembered for leaving erase mode), and two stacks of
surface snapshots. `canvasStates` is the undo history and
`recentlyDeletedStates` the redo history. The model covers how the
listeners and methods update these fields: mouse-down, mouse-move,
mouse-up, window resize, the stroke-width button, the erase toggle, undo,
redo and the colour picker.

Pixels are abstracted away. A surface is a `DrawingTypes.Surface` value.
It is either `Blank` or a segment `Stroked` over an earlier surface,
tagged with the colour and width that were current when it was drawn.
A snapshot `getImageData` returns, or an off-screen canvas from
`saveCanvasData`, is a copy of the surface, so it is that same value.
Restoring a snapshot (`putImageData`, or `drawImage` after a resize)
makes the surface equal to it.

Layout:

- `drawing_types.dfy` (`DrawingTypes`): `Option` for fields that start
  `undefined`, `Surface`, the constants `"white"`, 15 and 10, and stack
  helpers.
- `canvas_state.dfy` (`CanvasState`): all fields as one `State` value.
  There is one function per method or listener giving the state after it,
  and each function's contract states what the operation promises.
- `canvas_events.dfy` (`CanvasEvents`): events dispatched to the
  listeners (`Step`) and runs of events (`Run`). It holds the invariants
  of every reachable state.
- `canvas_properties.dfy` (`CanvasProperties`): properties that relate
  several operations. These cover the undo/redo round trips, repeated
  undo, the width cycle, the erase round trip and resizing after a stroke.
- `canvas.dfy` (`CanvasObject`): the class `Canvas` with the source's
  fields. Its methods update the fields in place. Each method is proved
  to leave `View()` equal to the matching `CanvasState` function applied
  to the old `View()`.

Modelling choices:

- `isErasing` starts `undefined`, and the code only ever reads it as
  `!this.isErasing`. So it is a `bool` that starts `false`.
- `currentColor`, `currentLineWidth`, `prevColor` and `prevLineWidth`
  start `undefined`, so they are `Option` values. Leaving erase mode
  before any mouse-up in paint mode sets colour and width back to `None`.
- `(strokeClickCount + 1) % 11 || 1` uses JavaScript's truncating `%`
  (`CanvasState.JsRemainder`), and a zero result counts as falsy.

The tool's design documentation is not part of this model. Where the
behaviour it describes and the code differ, this model follows the code:

- Undoing the last entry of `canvasStates` passes `canvasStates.at(-1)`,
  which is `undefined`, to `putImageData` (scripts/Canvas.js:109-110).
  That call throws a `TypeError`. The stack transfer on line 108 has
  already happened, but the surface and `currentState` are left as they
  were. The design says the surface becomes blank at that point. It does
  not: N segments drawn and then N undos still show the first segment
  (`CanvasProperties.StrokesThenUndos`).
- Leaving erase mode restores `prevColor` and `prevLineWidth`, which only
  a paint-mode mouse-up records (scripts/Canvas.js:48-51, 167-168). It
  does not restore the settings in force when erase mode was entered: a
  colour picked and then toggled through erase mode before any stroke is
  lost (`CanvasProperties.ToggleTwiceAfterPickLosesColor`).
- Redo does not give back what the undo took off the surface. Redo shows
  the snapshot undo moved, which is the old top of the undo stack
  (`CanvasProperties.UndoThenRedo`). An erase stroke pushes onto the redo
  stack, not the undo stack, so after an erase stroke undo and redo bring
  back the surface from before the erasing
  (`CanvasProperties.UndoRedoAfterEraseStroke`).
- The design gives the line width a range of 1..10. In the code it is
  undefined until the first setting, 15 in erase mode, and only the click
  count stays in 1..10 (`CanvasEvents.ReachableIsConsistent`).

No event shrinks the two stacks taken together. Undo moves its snapshot to
the redo stack, and redo pushes a copy onto the undo stack before it pops,
so the history grows without bound (`CanvasEvents.RunNeverDropsSnapshots`).

## Model

| member | source | states |
|---|---|---|
| `CanvasState.Init` | scripts/Canvas.js:18-24 | The constructed canvas shows a blank surface that is also the current state. It is not drawing, the pointer is at (0, 0), the click count is 1, both stacks are empty and every pen setting is undefined. |
| `CanvasState.JsRemainder` | scripts/Canvas.js:58 | JavaScript's `%` for a positive divisor b: a == b*q + r for some integer q, with 0 <= r < b for a non-negative dividend and -b < r <= 0 for a negative one. So the quotient is truncated toward zero and the remainder takes the dividend's sign. |
| `CanvasState.NextStrokeCount` | scripts/Canvas.js:58 | For a count in 1..10 the next count is one more, except that 10 wraps to 1. Any non-negative count gives a next count in 1..10. |
| `CanvasState.SetCoords` | scripts/Canvas.js:79-83 | Mouse-down starts drawing at the event's position and changes nothing else. |
| `CanvasState.Draw` | scripts/Canvas.js:84-103 | When not drawing, nothing changes. When drawing, the surface gains a segment from the old position to the event's in the current colour and width, and the position moves there. Exactly one copy of the new surface is pushed: onto the redo stack when the colour is "white", onto the undo stack otherwise. The other stack and every other field are untouched. |
| `CanvasState.Undo` | scripts/Canvas.js:105-112 | An empty undo stack is a no-op. Otherwise its top is popped and pushed onto the redo stack, so the combined length is preserved. While entries remain, the surface and the current state both become the new top. When none remain, the surface and the current state are unchanged. |
| `CanvasState.Redo` | scripts/Canvas.js:113-123 | An empty redo stack is a no-op. Otherwise its top is popped, the surface and the current state become that snapshot, and the undo stack grows by one entry equal to it. The combined length is preserved and nothing else changes. |
| `CanvasState.StopDrawing` | scripts/Canvas.js:143-145 | Drawing stops and nothing else changes. |
| `CanvasState.ResizeCanvas` | scripts/Canvas.js:192-195 | After the refit clears the surface, the surface equals the saved snapshot and nothing else changes. |
| `CanvasState.SetLineWidth` | scripts/Canvas.js:147-150 | The width becomes the argument and the surface is repainted from the current state. Nothing else changes. |
| `CanvasState.SetLineColor` | scripts/Canvas.js:151-154 | The colour becomes the argument and the surface is repainted from the current state. Nothing else changes. |
| `CanvasState.ToggleEraser` | scripts/Canvas.js:156-172 | Entering erase mode sets `isErasing`, the colour "white" and width 15. Leaving it clears `isErasing` and restores `prevColor` and `prevLineWidth`. The remembered settings never change, the surface is repainted from the current state, and nothing else changes. |
| `CanvasState.MouseUp` | scripts/Canvas.js:45-52 | Mouse-up stops drawing and records the surface as the current state. Only outside erase mode does it copy the current colour and width into `prevColor` and `prevLineWidth`. |
| `CanvasState.StrokeClick` | scripts/Canvas.js:57-61 | The click count advances through 1..10, wrapping 10 to 1. The width becomes the new count and the surface is repainted from the current state. |
| `CanvasState.PickColor` | scripts/Canvas.js:72-76 | The colour becomes '#' followed by the picked digits, which is never "white". The surface is repainted from the current state. |
| `CanvasEvents.Step` | scripts/Canvas.js:31-76 | Each listener keeps the reachable-state invariant: the click count stays in 1..10, the remembered colour is never "white", and outside erase mode neither is the current colour. Only a mouse-move while drawing adds a snapshot, exactly one, to the two stacks together. |
| `CanvasEvents.RunKeepsConsistent` | scripts/Canvas.js:31-76 | Any sequence of events from a consistent state ends in a consistent state. |
| `CanvasEvents.ReachableIsConsistent` | scripts/Canvas.js:18-76 | Every state reachable from the constructed canvas is consistent. |
| `CanvasEvents.RunNeverDropsSnapshots` | scripts/Canvas.js:94-122 | Over any sequence of events the two stacks together never shrink, and they grow by at most one snapshot per event. |
| `CanvasEvents.PaintModeDrawsAreUndoable` | scripts/Canvas.js:94-102 | In every reachable state outside erase mode, a drawn segment goes onto the undo stack and the redo stack is untouched. |
| `CanvasProperties.UndoThenRedo` | scripts/Canvas.js:105-123 | On a non-empty undo stack, undo followed by redo gives back both stacks exactly. The surface and the current state then show the old undo top, and nothing else changes. |
| `CanvasProperties.RedoThenUndo` | scripts/Canvas.js:105-123 | On a non-empty redo stack, redo followed by undo gives back both stacks exactly. The surface shows the old undo top, or the redone snapshot when the undo stack was empty. |
| `CanvasProperties.UndoTimesMoves` | scripts/Canvas.js:105-112 | As many undos as there are snapshots above a base move exactly those snapshots onto the redo stack, newest first, and leave the base. |
| `CanvasProperties.UndoOnTop` | scripts/Canvas.js:105-112 | One undo with a snapshot on top of a base leaves the base as the undo stack. The surface and the current state show the base's top, or are unchanged when the base is empty. |
| `CanvasProperties.UndoTimesShows` | scripts/Canvas.js:105-112 | After those undos the surface shows the top of the base. With no base it shows the oldest moved snapshot, or its earlier contents when only one was moved; it is never cleared. |
| `CanvasProperties.DrawsPushEach` | scripts/Canvas.js:84-103 | While drawing in a paint colour, each mouse-move appends one snapshot to the undo stack and keeps what was there. The first appended snapshot is the surface after the first segment. |
| `CanvasProperties.StrokesThenUndos` | scripts/Canvas.js:84-112 | N segments in a paint colour followed by N undos restore the undo stack and lengthen the redo stack by N. From an empty history the surface still shows the first segment. |
| `CanvasProperties.UndoRedoAfterEraseStroke` | scripts/Canvas.js:84-123 | After a paint stroke, a mouse-up, erase mode and an erase stroke, undo followed by redo shows the paint stroke, not the erased surface seen before the undo. |
| `CanvasProperties.StrokeClicksFromInit` | scripts/Canvas.js:22-60 | From the constructed canvas, n presses of the stroke button leave the count, and after at least one press the width, at (n mod 10) + 1. |
| `CanvasProperties.DrawAfterMouseUpChangesNothing` | scripts/Canvas.js:45-85 | After a mouse-up, a mouse-move changes nothing: not the stacks, the position or the surface. |
| `CanvasProperties.DrawStartsAtMouseDown` | scripts/Canvas.js:79-92 | The first segment after a mouse-down starts at the mouse-down position. |
| `CanvasProperties.EraseRoundTrip` | scripts/Canvas.js:156-172 | Outside erase mode, entering and leaving erase mode right after a mouse-up gives back exactly the state after the mouse-up. |
| `CanvasProperties.LeavingEraseRestoresPaintSettings` | scripts/Canvas.js:156-172 | Toggling erase mode on and off from paint mode ends in paint mode with the remembered colour and width. |
| `CanvasProperties.ToggleTwiceAfterPickLosesColor` | scripts/Canvas.js:45-172 | A colour picked on the fresh canvas and then toggled through erase mode is lost: colour and width go back to undefined, the remembered settings. |
| `CanvasProperties.ResizeAfterMouseUpKeepsSurface` | scripts/Canvas.js:38-47 | A window resize right after a mouse-up leaves the whole state, surface included, unchanged. |
| `CanvasObject.Canvas.constructor` | scripts/Canvas.js:14-29 | The new object's fields are `CanvasState.Init`, and the click count is in range. |
| `CanvasObject.Canvas.SetCoords` | scripts/Canvas.js:79-83 | The fields become `CanvasState.SetCoords` of the old fields. |
| `CanvasObject.Canvas.Draw` | scripts/Canvas.js:84-103 | The fields become `CanvasState.Draw` of the old fields; the two stacks are updated by a push. |
| `CanvasObject.Canvas.Undo` | scripts/Canvas.js:105-112 | The fields become `CanvasState.Undo` of the old fields. The handler stops where `putImageData(undefined)` throws. |
| `CanvasObject.Canvas.Redo` | scripts/Canvas.js:113-123 | The fields become `CanvasState.Redo` of the old fields. |
| `CanvasObject.Canvas.StopDrawing` | scripts/Canvas.js:143-145 | The fields become `CanvasState.StopDrawing` of the old fields. |
| `CanvasObject.Canvas.ResizeCanvas` | scripts/Canvas.js:192-195 | The fields become `CanvasState.ResizeCanvas` of the old fields and the saved snapshot. |
| `CanvasObject.Canvas.SetLineWidth` | scripts/Canvas.js:147-150 | The fields become `CanvasState.SetLineWidth` of the old fields. |
| `CanvasObject.Canvas.SetLineColor` | scripts/Canvas.js:151-154 | The fields become `CanvasState.SetLineColor` of the old fields. |
| `CanvasObject.Canvas.ToggleEraser` | scripts/Canvas.js:156-172 | The fields become `CanvasState.ToggleEraser` of the old fields. |
| `CanvasObject.Canvas.OnMouseUp` | scripts/Canvas.js:45-52 | The fields become `CanvasState.MouseUp` of the old fields. |
| `CanvasObject.Canvas.OnStrokeClick` | scripts/Canvas.js:57-61 | The fields become `CanvasState.StrokeClick` of the old fields, and the click count stays in 1..10. |
| `CanvasObject.Canvas.OnColorChange` | scripts/Canvas.js:72-76 | The fields become `CanvasState.PickColor` of the old fields. |
| `CanvasObject.Canvas.OnWindowResize` | scripts/Canvas.js:38-40 | The surface is repainted from `currentState` and nothing else changes. |

## Left out

- Pixel data and the 2D context are not modelled: `getImageData`, `putImageData`, `drawImage`, `beginPath`/`moveTo`/`lineTo`/`stroke`, and `lineCap`/`lineJoin`.
  - A segment records the colour and width fields as they are, possibly undefined. It does not record the style the context actually applies.
- Canvas dimensions are not modelled: `fitCanvasSize` and `window.innerWidth`/`innerHeight`. Cropping or padding when a snapshot is restored onto a canvas of another size is not captured.
- The `TypeError` thrown by `putImageData(undefined)` is modelled only through the state it leaves behind. Its propagation out of the handler is not modelled.
- Pointer offsets are integers. Fractional `offsetX`/`offsetY` values are not modelled.
- `downloadCanvas` is not modelled (DOM elements, JPEG encoding and a file download), and neither is the download button's listener. They change no field.
- The `pickr` colour picker is a foreign widget. Its change event is modelled as a string of hexadecimal digits (`ColorPicked`, `OnColorChange`). `toHEXA` itself is not modelled.
- `redraw` is dead code: it iterates over `this.lines`, which is never defined. `clearCanvas` is never called.
- `console.log` calls, cursor styles, button icons, the width/colour/erase labels and `addEventListener` registration are not modelled. Registration appears only as the listener each `CanvasEvents.Event` reaches.
- The constructor takes its DOM elements as parameters. These are not modelled. The model assumes all nine are supplied, so every listener of scripts/Canvas.js:31-76 is registered.
- scripts/main.js passes only seven elements and omits `undoBtn` and `redoBtn`. In that setup `undoBtn.addEventListener` (scripts/Canvas.js:65) throws inside the constructor. The undo, redo and colour-picker listeners (scripts/Canvas.js:65-76) are then never registered, so `UndoButton`, `RedoButton` and `ColorPicked` cannot occur. The invariants of `CanvasEvents` still hold there, because they are proved for any sequence over the full event set. The page wiring in scripts/main.js is not otherwise modelled.
- There is no concurrency: handlers run one at a time, matching the event loop.
