# simple-drawing: the action history of the drawing board

This project models, in Dafny, the action-history core of the simple-drawing
mini-program board and proves properties of it. A board keeps a list of
committed actions: handwriting strokes, eraser tracks and pan/zoom records.
It also keeps a gesture counter, `actionVersion`. Every touch-move frame
continues the current gesture's action, opens a new one, or leaves the
history unchanged.
Lifting every finger, once something has been committed, closes the gesture
and advances the counter. An older
engine (`Actions`) does the same for strokes keyed by a caller-supplied id,
and it keeps a global zoom factor that never drops below 1.

Canvas effects are modelled as the list of drawing commands an operation
issues (`Canvas.Command`). Properties about drawing are stated over that
trace: which vertices are drawn, in which order, and how often the path is
stroked. `Canvas.PathOf`, `Canvas.StrokeCount` and `Canvas.RoundedPath` (the
rounded polyline of a list of points) are these observations; they and their
append lemmas are reasoning tools, not code of the program.

| file | module | models |
|---|---|---|
| geometry.dfy | `Geometry` | `Pair`, `Math.round`, the touch centroid |
| canvas.dfy | `Canvas` | the drawing commands, the rounded vertex `moveTo`/`lineTo`, and the path and stroke count of a trace |
| handwriting.dfy | `HandwritingAction` | utils/actions/handwriting.js |
| eraser.dfy | `EraserAction` | utils/actions/eraser.js |
| scale.dfy | `ScaleAction` | utils/actions/scale.js |
| scale_drag.dfy | `ScaleDragAction` | the `ScaleDrag` record of utils/actions/scale-drag.js |
| actions.dfy | `ActionsEngine` | utils/actions/actions.js |
| board.dfy | `BoardEngine` | utils/board.js |

Each action file is modelled against its own signature. As written, the
board and the stroke class do not fit together. `board.js` constructs a
stroke without an `offset` and calls `addPoint` without a `boardSize`
(utils/board.js:164-170), so line 68 of `addPoint`
(utils/actions/handwriting.js:68) throws a TypeError. The throw at
utils/board.js:170 comes before the push at :174, so the board never commits
a stroke. The snapshot replay at utils/board.js:323 throws the same way,
before the reload and before the counter moves at :339. The board engine here
follows `board.js`'s own view instead: a handwriting frame stores the touched
point in the stroke and the gesture is closed normally. The stroke class's
trace and replay are modelled on their own, in `HandwritingAction`.

The pan/zoom frame is modelled as the code computes it. A steady two-finger
pinch (ratio 1) adds `prevBoardSize` to the board size on every frame
(utils/board.js:233-249). `currentBoardPosition` is never assigned after the
constructor. `BoardEngine.SteadyFingersGrowBoard` states both.

## Model

| member | source | states |
|---|---|---|
| Geometry.Round | utils/actions/handwriting.js:76-79 | `Math.round` gives the integer nearest to x, with halves rounded up: x - 0.5 < r <= x + 0.5 |
| Geometry.RoundIntegral | utils/actions/handwriting.js:76-79 | rounding an integral coordinate leaves it unchanged |
| Geometry.Centroid | utils/board.js:188-194 | a single finger's centre is that finger's own position |
| Geometry.CentroidWithin | utils/board.js:188-194 | the computed touch centre lies inside every box that contains all the fingers |
| Geometry.SumAbove | utils/board.js:188-194 | the coordinate sum of n fingers is at least n times any lower bound on every finger |
| Geometry.SumBelow | utils/board.js:188-194 | the coordinate sum of n fingers is at most n times any upper bound on every finger |
| Geometry.SumTranslate | utils/board.js:188-194 | moving n points by delta moves their sum by n times delta |
| Geometry.CentroidTranslate | utils/board.js:188-194 | moving every finger by delta moves the computed touch centre by exactly delta |
| Canvas.PaintStyleIsSilent | utils/actions/handwriting.js:73-76 | the paint set-up (beginPath, strokeStyle, lineWidth, lineJoin) draws no vertex and strokes nothing |
| HandwritingAction.New | utils/actions/handwriting.js:18-55 | a new stroke has no points and keeps the version, colour, width and offset it was given |
| HandwritingAction.BoardScale | utils/actions/handwriting.js:68 | the zoom is 1 when the board is as wide as the canvas, and at least 1 when the board is at least as wide |
| HandwritingAction.AddPoint | utils/actions/handwriting.js:66-82 | appends one point and keeps the earlier ones and every other field. With no offset the stored point is the touched point. The first point opens a path with the stroke's paint at the rounded touch point; later points draw one rounded lineTo and stroke it |
| HandwritingAction.AddPointShift | utils/actions/handwriting.js:67-71 | the stored point differs from the touched one by the offset divided by the zoom: displacement times board width equals offset times canvas width |
| HandwritingAction.AddPointVertex | utils/actions/handwriting.js:72-81 | one addPoint draws exactly one vertex, and strokes only when it does not open the path |
| HandwritingAction.AddAll | utils/actions/handwriting.js:66-82 | feeding points one by one adds them all, in order when there is no offset, and changes nothing else |
| HandwritingAction.IncrementalStep | utils/actions/handwriting.js:66-82 | for any offset and any board zoom, drawing one more point of a fresh stroke adds exactly that point's rounded vertex, and one stroke unless it is the first point |
| HandwritingAction.IncrementalPath | utils/actions/handwriting.js:66-82 | for any offset and any board zoom, drawing a fresh stroke point by point traces the rounded polyline of the touched points and strokes once per segment |
| HandwritingAction.Walk | utils/actions/handwriting.js:109-117 | the replay loop issues one vertex per point: moveTo for the first point, lineTo for the rest, each rounded after zooming and then shifted |
| HandwritingAction.ReDraw | utils/actions/handwriting.js:92-119 | an empty stroke draws nothing. Otherwise one path: the stroke's colour, the width times the zoom, round joins, a moveTo to the first point, a lineTo to each later point in order, and one final stroke |
| HandwritingAction.ReDrawShift | utils/actions/handwriting.js:104-107 | with the board at canvas size the shift is the stroke's own offset; a board at least as large as the canvas never shifts the replay left of or above that offset |
| HandwritingAction.WalkAtRest | utils/actions/handwriting.js:109-117 | unzoomed and unshifted, the replay loop draws exactly the reference rounded polyline |
| HandwritingAction.ReDrawAtRest | utils/actions/handwriting.js:92-119 | with the board at canvas size and no offset, the replay draws exactly the rounded polyline and strokes once |
| HandwritingAction.IncrementalMatchesReDraw | utils/actions/handwriting.js:66-119 | drawing point by point and replaying the stroke produce the same vertices in the same order |
| EraserAction.New | utils/actions/eraser.js:12-43 | a new eraser track has no points and keeps the version, colour and width it was given |
| EraserAction.AddPoint | utils/actions/eraser.js:53-67 | appends the point unchanged and keeps every other field. The first point opens a path with the paint set-up at the rounded point; later points draw one rounded lineTo and stroke it |
| EraserAction.Walk | utils/actions/eraser.js:89-100 | the replay loop's trace has 2n - 1 commands for n points |
| EraserAction.WalkStartedAt | utils/actions/eraser.js:96-99 | once the path is open, point i is drawn at position 2i as a rounded lineTo, followed at 2i + 1 by a stroke |
| EraserAction.WalkAt | utils/actions/eraser.js:89-100 | in the replay loop every point after the first is drawn at position 2i - 1 as a rounded lineTo, followed at 2i by a stroke |
| EraserAction.WalkPositions | utils/actions/eraser.js:89-100 | the replay loop opens with a moveTo to the rounded first point, then draws each later point's lineTo immediately followed by a stroke |
| EraserAction.WalkGeometry | utils/actions/eraser.js:89-100 | the loop draws the rounded vertex of every point in order, and strokes after each lineTo |
| EraserAction.ReDraw | utils/actions/eraser.js:80-101 | an empty track draws nothing. Otherwise the paint set-up with the width times the scale, then the loop: 2n + 3 commands for n points |
| EraserAction.ReDrawGeometry | utils/actions/eraser.js:80-101 | the replay draws the rounded polyline of the track for any scale, top-left vertex and canvas size, and strokes n - 1 times |
| EraserAction.AddAll | utils/actions/eraser.js:53-67 | feeding points one by one appends them all, in order, and changes nothing else |
| EraserAction.WalkSnoc | utils/actions/eraser.js:89-100 | one more point appends that point's commands to the loop's trace |
| EraserAction.ReDrawUnfold | utils/actions/eraser.js:80-87 | a non-empty track replays as its paint set-up followed by the loop |
| EraserAction.EraseStep | utils/actions/eraser.js:53-67 | erasing one more point of a fresh track appends exactly that point's commands: the paint set-up and a moveTo for the first point, a lineTo and a stroke for later ones |
| EraserAction.IncrementalTrace | utils/actions/eraser.js:53-101 | erasing a fresh track point by point issues the paint set-up once, followed by exactly the trace of the replay loop |
| EraserAction.IncrementalMatchesReDraw | utils/actions/eraser.js:53-101 | erasing point by point and replaying the track at scale 1 issue the very same command list |
| ScaleAction.New | utils/actions/scale.js:14-51 | a new zoom step holds current and previous scale 1, and the id and origin scale it was given |
| ScaleAction.Record | utils/actions/scale.js:56-59 | record shifts the register: the previous scale becomes the old current one, and the current scale the new one; id and origin are kept |
| ScaleAction.RecordTwice | utils/actions/scale.js:56-59 | after two records the register holds exactly the two recorded scales, in order |
| ScaleAction.DrawFactor | utils/actions/scale.js:61-65 | the factor times the origin scale times the previous scale gives the current scale |
| ScaleAction.Draw | utils/actions/scale.js:61-65 | draw issues one uniform scale transform whose factor undoes origin and previous scale |
| ScaleAction.FreshDrawFactor | utils/actions/scale.js:14-65 | a fresh step draws with factor 1 / originScale |
| ScaleAction.DrawAfterRecords | utils/actions/scale.js:56-65 | after recording a then b, the factor times a times the origin is b |
| ActionsEngine.Init | utils/actions/actions.js:23-99 | an empty history, global zoom 1, no zoom step, top-left vertex (0, 0), no image; the zoom invariant holds |
| ActionsEngine.ExecHandWriting | utils/actions/actions.js:111-135 | the point joins the last stroke exactly when that stroke has the same id, leaving the list length unchanged. Otherwise a new one-point stroke with the given id, colour and width is pushed. Earlier strokes and all other state are kept |
| ActionsEngine.ContinueStroke | utils/actions/actions.js:113-120 | a later point of the same gesture is appended in place to the stroke that gesture opened |
| ActionsEngine.GestureIsOneStroke | utils/actions/actions.js:111-135 | a whole gesture that does not continue the last stroke adds exactly one stroke holding all its points in order |
| ActionsEngine.GlobalScale | utils/actions/actions.js:180 | a pinch factor of 1 keeps the zoom the step started from; a factor of at least 1 never lowers it, and one between 0 and 1 never raises it |
| ActionsEngine.Scale | utils/actions/actions.js:166-185 | no effect without an image. A zoom step starting at the current zoom is opened only when there is none or its id differs; otherwise it is reused. A global zoom below 1 is rejected and leaves the zoom unchanged. Only the zoom and the zoom step can change: strokes, vertex, image flag and pixel ratio are kept |
| ActionsEngine.OperationsKeepValid | utils/actions/actions.js:111-185 | neither operation can bring the global zoom below 1 |
| ActionsEngine.ZoomFromGestureStart | utils/actions/actions.js:171-185 | within one gesture the zoom is taken from the gesture's starting zoom, not compounded frame by frame |
| BoardEngine.Init | utils/board.js:42-123 | empty history, board size equal to the canvas at position (0, 0), no image, status NOEDIT, version 0, width 3, colour black; the board invariant holds |
| BoardEngine.ExecHandWriting | utils/board.js:149-175 | the point joins the last action exactly when it is a stroke of the current version, leaving the list length unchanged. Otherwise a one-point stroke with the current version, colour and width is pushed. Earlier actions and all other state are kept |
| BoardEngine.HandWritingKeepsValid | utils/board.js:149-175 | a handwriting frame keeps the board invariant: versions never decrease and never exceed the counter |
| BoardEngine.StrokeGesture | utils/board.js:149-175 | a one-finger gesture in handwriting mode commits exactly one new stroke with the current version, colour and width, holding every touched point in order |
| BoardEngine.OpenStrokeFrame | utils/board.js:164-174 | a frame that starts a stroke appends a one-point stroke of the current gesture |
| BoardEngine.ContinueStrokeFrame | utils/board.js:153-161 | a frame of the same gesture appends its point to that gesture's stroke in place |
| BoardEngine.ZoomCandidate | utils/board.js:231-240 | a ratio of exactly 1 adds the gesture's starting size to the board; for a non-negative starting size a ratio of at least 1 never shrinks the board and a ratio in [0, 1) never grows it |
| BoardEngine.OpenDrag | utils/board.js:205-224 | a pan/zoom record snapshotting the frame's centre, distance and the current board size is pushed only when the gesture has no action yet; either way the gesture's record ends the history |
| BoardEngine.ZoomFrame | utils/board.js:227-275 | the zoomed size is rejected, changing nothing, when it falls below the canvas in either dimension. Otherwise it becomes the board size and only the record's centre changes, to this frame's centre |
| BoardEngine.DragFrame | utils/board.js:205-275 | once the image exists: a record is opened only when the gesture has none, a size below the canvas is rejected keeping size and centre, an accepted size becomes the board size and moves the centre to this frame's centre; the start distance and start size never change |
| BoardEngine.ExecScaleDrag | utils/board.js:182-277 | no effect without an image. A pan/zoom record is opened only when the gesture has none. A size below the canvas is rejected, keeping size and centre. Otherwise the size becomes the candidate and the centre becomes this frame's centroid. The start distance and start size never change |
| BoardEngine.ScaleDragKeepsValid | utils/board.js:182-277 | a pan/zoom frame keeps the board at least as large as the canvas and keeps the history invariants |
| BoardEngine.SteadyFingersGrowBoard | utils/board.js:231-249 | with the finger distance unchanged, every frame grows the board by its size at gesture start, and the position does not move |
| BoardEngine.PanFollowsFingers | utils/board.js:188-275 | when all fingers move by delta, an accepted frame records the centre moved by exactly delta |
| BoardEngine.BoardTouchMove | utils/board.js:291-306 | no fingers: nothing happens. One finger: handwriting in HANDWRITING mode, nothing otherwise. Several fingers: pan/zoom. The version and status never change and no earlier action is dropped |
| BoardEngine.SecondFingerWithoutImage | utils/board.js:182-183 | before any image exists, a second finger landing during a stroke is allowed and leaves the board exactly as it was |
| BoardEngine.TouchMoveKeepsValid | utils/board.js:291-306 | every touch-move frame keeps the board invariant |
| BoardEngine.AppendKeepsValid | utils/board.js:164-174 | pushing an action of the current gesture keeps the history invariants |
| BoardEngine.ReplaceLastKeepsValid | utils/board.js:153-161 | updating the last action in place within its gesture keeps the history invariants |
| BoardEngine.BoardTouchEnd | utils/board.js:312-341 | the reload fails only when a stroke or eraser track of the current gesture must be snapshotted and the image does not load. Otherwise the version advances by one exactly when no finger is left and the history is non-empty, and the image flag is set exactly when it was set before or a snapshot was taken; nothing else changes |
| BoardEngine.TouchEndKeepsValid | utils/board.js:312-341 | closing a gesture keeps the board invariant |
| BoardEngine.TouchEndOpensNextGesture | utils/board.js:312-341 | after a gesture closes, the next frame continues no committed stroke and opens a new pan/zoom record |
| BoardEngine.OneStrokeScenario | utils/board.js:291-341 | on a fresh board in handwriting mode, drawing (10,10), (20,10), (20,20) and lifting the finger commits one stroke with exactly that track, with the version now 1 |

## Left out

- Asynchronous image loading: `loadOffScreenCanvas`, `toDataURL`, `onload`/`onerror` and the `await`s. The loaded image is a boolean flag. Whether the reload succeeds is a parameter of `BoardTouchEnd`; a failure rejects the call before the counter moves.
- The `clearRect`/`drawImage` blits of the zoom path (utils/board.js:251-270) are pixel rendering and hold no history. The `console.log` of the touch event at the start of `boardTouchEnd` (utils/board.js:313) is debugging output.
- `Math.sqrt` of the two-finger distance. The distance is a parameter of `ExecScaleDrag` and `BoardTouchMove`, required to be positive.
- BoardEngine.BoardTouchEnd: the counter is an unbounded `nat` incremented by one; the `% Number.MAX_VALUE` wrap is not modelled, since a floating-point counter reaching that bound is out of reach.
- The device pixel ratio read from the host system. It is a parameter (`dpr`) of the handwriting replay.
- Undo, redo and reset are not in the code. `rollbackActions` is declared but never used, so it is only a field.
- `boardTouchStart` and the board's own `reDraw` have empty bodies, so nothing is modelled for them.
- `Actions.endHandWriting` calls a `reDrawAll` that no class defines, then awaits the image load. It is not modelled.
- ActionsEngine.ExecHandWriting: follows the file's own view of a stroke keyed by `id` with width `lineWidth`. The stroke class stores the key as `actionVersion` and the width as `width`, and its `addPoint` needs a board size that this engine does not pass, so the two do not compose as written.
- BoardEngine.ExecHandWriting: the board's call to `addPoint` throws a TypeError, since it passes no board size and the stroke has no offset (utils/board.js:164-170, utils/actions/handwriting.js:68), so the board as written never commits a stroke. The model follows the board's own view: it appends the raw point and does not replay the live-canvas trace.
- BoardEngine.BoardTouchEnd: the snapshot `reDraw` call at utils/board.js:323 throws for a stroke in the same way, before the reload and before the counter moves. The model lets the replay happen and leaves its outcome to the `reloadOk` parameter.
- `Actions.scale` passes an `image` the zoom step ignores; the step has no image field.
- BoardEngine.ExecScaleDrag: once the off-screen image exists, a gesture that starts with one finger and adds a second one reads a start distance and size the stroke does not have. That case is excluded by the precondition `b.offScreenImage ==> DragContinuable(b)`. Before the image exists the frame is a no-op for every board, and `BoardEngine.SecondFingerWithoutImage` states that.
- HandwritingAction.AddPoint, HandwritingAction.ReDraw, ScaleAction.DrawFactor and ScaleAction.Draw require the canvas width, board width, pixel ratio or recorded scales to be non-zero. The source divides by them, and IEEE infinities and NaN are not modelled.
- Floating point: coordinates, sizes and scales are JS doubles and are modelled as exact reals. Floating-point rounding is not modelled, so the exact equalities of `Geometry.CentroidTranslate`, `BoardEngine.PanFollowsFingers` and `HandwritingAction.AddPointShift` hold in the model and only approximately in the program. Likewise a `Math.round` tie (utils/actions/handwriting.js:112, :115) or the canvas-size rejection test (utils/board.js:241) can fall on the other side of its boundary in the program.
- The recorded pan centre is never turned into a board position: the code never updates `currentBoardPosition`, and the model keeps it unchanged.
- The three status names of `board-status.js` are modelled by `BoardEngine.BoardStatus`; nothing else of that file is needed. `drag.js` (an unused record), `util.js` and the page file `drawing-board.js` (lifecycle and gesture wiring) are not part of this model.
