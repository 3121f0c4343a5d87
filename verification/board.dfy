/**
 * The drawing board's history engine: the committed actions, the gesture
 * counter `actionVersion`, the edit status and the pan/zoom state. Each touch
 * frame continues the current gesture's action, opens a new one, or leaves
 * the history unchanged; lifting every finger, once something has been
 * committed, closes the gesture and advances the counter.
 */
module BoardEngine {
  import opened Geometry
  import HandwritingAction
  import EraserAction
  import opened ScaleDragAction

  /** The toolbar mode, set by the host. */
  datatype BoardStatus = NOEDIT | HANDWRITING | ERASER

  datatype Action =
    | Write(stroke: HandwritingAction.Handwriting)
    | Erase(track: EraserAction.Eraser)
    | Drag(drag: ScaleDrag)
  {
    /** The gesture that produced the action. */
    function Version(): int
    {
      match this
      case Write(s) => s.actionVersion
      case Erase(e) => e.actionVersion
      case Drag(d) => d.actionVersion
    }
  }

  /**
   * `canvasSize` is the physical size of the board's canvas; `offScreenImage`
   * says whether the off-screen snapshot image has been loaded (the image
   * itself is not modelled). `rollbackActions` is declared by the board but
   * no operation uses it.
   */
  datatype Board = Board(
    commitActions: seq<Action>,
    rollbackActions: seq<Action>,
    canvasSize: Pair,
    currentBoardSize: Pair,
    currentBoardPosition: Pair,
    offScreenImage: bool,
    status: BoardStatus,
    actionVersion: nat,
    handwritingWidth: real,
    handwritingColor: string)
  {
    /** The most recent action, if any. */
    predicate HasLast()
    {
      |commitActions| > 0
    }

    function Last(): Action
      requires HasLast()
    {
      commitActions[|commitActions| - 1]
    }
  }

  /**
   * What every reachable board satisfies: the board is never smaller than the
   * canvas, actions are stamped with versions that never decrease and never
   * exceed the current one, and every pan/zoom action has a positive
   * starting finger distance.
   */
  predicate Valid(b: Board)
  {
    && Covers(b.currentBoardSize, b.canvasSize)
    && (forall i :: 0 <= i < |b.commitActions| ==> b.commitActions[i].Version() <= b.actionVersion)
    && (forall i, j :: 0 <= i < j < |b.commitActions| ==> b.commitActions[i].Version() <= b.commitActions[j].Version())
    && (forall i :: 0 <= i < |b.commitActions| && b.commitActions[i].Drag? ==> b.commitActions[i].drag.scaleDistance > 0.0)
  }

  /** The board of a fresh session on a canvas of the given physical size. */
  function Init(canvasSize: Pair): (b: Board)
    ensures b.commitActions == [] && b.rollbackActions == []
    ensures b.currentBoardSize == canvasSize && b.currentBoardPosition == Pair(0.0, 0.0)
    ensures b.canvasSize == canvasSize && !b.offScreenImage
    ensures b.status == NOEDIT && b.actionVersion == 0
    ensures b.handwritingWidth == 3.0 && b.handwritingColor == "black"
    ensures Valid(b)
  {
    Board([], [], canvasSize, canvasSize, Pair(0.0, 0.0), false, NOEDIT, 0, 3.0, "black")
  }

  /** The earlier actions are kept as they were; only the last one may have been updated in place. */
  predicate KeepsHistory(b: Board, r: Board)
  {
    && |r.commitActions| >= |b.commitActions|
    && (b.HasLast() ==> r.commitActions[..|b.commitActions| - 1] == b.commitActions[..|b.commitActions| - 1])
  }

  /** The last action is the handwriting of the current gesture. */
  predicate ContinuesStroke(b: Board)
  {
    b.HasLast() && b.Last().Write? && b.Last().Version() == b.actionVersion
  }

  /**
   * A one-finger frame in handwriting mode: the point joins the stroke of the
   * current gesture, or else starts a new stroke in the board's colour and
   * width stamped with the current version. Nothing else changes.
   */
  function ExecHandWriting(b: Board, touches: seq<Pair>): (r: Board)
    requires |touches| > 0
    ensures r.(commitActions := b.commitActions) == b
    ensures ContinuesStroke(b) ==>
              var n := |b.commitActions|;
              && |r.commitActions| == n
              && r.commitActions[..n - 1] == b.commitActions[..n - 1]
              && r.commitActions[n - 1].Write?
              && r.commitActions[n - 1].stroke.points == b.commitActions[n - 1].stroke.points + [touches[0]]
              && r.commitActions[n - 1].stroke.(points := b.commitActions[n - 1].stroke.points)
                 == b.commitActions[n - 1].stroke
    ensures !ContinuesStroke(b) ==>
              && |r.commitActions| == |b.commitActions| + 1
              && r.commitActions[..|b.commitActions|] == b.commitActions
              && r.Last().Write?
              && r.Last().stroke.points == [touches[0]]
              && r.Last().Version() == b.actionVersion
              && r.Last().stroke.ctxColor == b.handwritingColor
              && r.Last().stroke.width == b.handwritingWidth
  {
    var point := touches[0];
    if ContinuesStroke(b) then
      var n := |b.commitActions|;
      var stroke := b.Last().stroke;
      b.(commitActions := b.commitActions[..n - 1] + [Write(stroke.(points := stroke.points + [point]))])
    else
      var stroke := HandwritingAction.New(b.actionVersion, b.handwritingColor, b.handwritingWidth, Pair(0.0, 0.0));
      b.(commitActions := b.commitActions + [Write(stroke.(points := [point]))])
  }

  /** A multi-finger frame opens a new pan/zoom action: there is no action of the current gesture yet. */
  predicate OpensDrag(b: Board)
  {
    !b.HasLast() || b.Last().Version() != b.actionVersion
  }

  /**
   * The frame can be handled as pan/zoom: either it opens a new action, or
   * the current gesture's action is a pan/zoom one with a positive starting
   * distance. Once the off-screen image exists, a gesture that switches from
   * one finger to several is excluded: the frame would read a starting
   * distance and size that a stroke does not have.
   */
  predicate DragContinuable(b: Board)
  {
    OpensDrag(b) || (b.Last().Drag? && b.Last().drag.scaleDistance > 0.0)
  }

  /**
   * The board size a zoom frame asks for: the size at gesture start times
   * the finger-distance ratio, added to the current size when zooming in
   * (ratio at least 1) and subtracted when zooming out.
   */
  function ZoomCandidate(current: Pair, prev: Pair, scaleMultiple: real): (r: Pair)
    ensures scaleMultiple == 1.0 ==> r == Pair(current.first + prev.first, current.second + prev.second)
    ensures prev.first >= 0.0 && prev.second >= 0.0 && scaleMultiple >= 1.0 ==> Covers(r, current)
    ensures prev.first >= 0.0 && prev.second >= 0.0 && 0.0 <= scaleMultiple < 1.0 ==> Covers(current, r)
  {
    ProductNonNegative(prev.first, scaleMultiple);
    ProductNonNegative(prev.second, scaleMultiple);
    var widthOffset := prev.first * scaleMultiple;
    var heightOffset := prev.second * scaleMultiple;
    if scaleMultiple < 1.0 then Pair(current.first - widthOffset, current.second - heightOffset)
    else Pair(current.first + widthOffset, current.second + heightOffset)
  }

  /**
   * The pan/zoom action a multi-finger frame works on: a new one snapshotting
   * this frame's centre and finger distance and the current board size, or
   * the current gesture's one.
   */
  function GestureDrag(b: Board, center: Pair, distance: real): ScaleDrag
    requires DragContinuable(b)
  {
    if OpensDrag(b) then ScaleDrag(b.actionVersion, distance, center, b.currentBoardSize)
    else b.Last().drag
  }

  /**
   * The first half of a multi-finger frame: a gesture without a pan/zoom
   * action pushes a new one; otherwise the history is left as it is. Either
   * way the gesture's action ends the history.
   */
  function OpenDrag(b: Board, center: Pair, distance: real): (r: Board)
    requires DragContinuable(b)
    ensures r.(commitActions := b.commitActions) == b
    ensures r.HasLast() && r.Last() == Drag(GestureDrag(b, center, distance))
    ensures OpensDrag(b) ==> r.commitActions == b.commitActions + [r.Last()]
    ensures !OpensDrag(b) ==> r.commitActions == b.commitActions
  {
    if OpensDrag(b) then b.(commitActions := b.commitActions + [Drag(GestureDrag(b, center, distance))])
    else b
  }

  /**
   * The second half of a multi-finger frame, on the pan/zoom action `d` that
   * ends the history: the zoomed size is rejected when it falls below the
   * canvas in either dimension; otherwise it becomes the board size and the
   * action's centre moves to `center`. Only the last action and the board
   * size can change.
   */
  function ZoomFrame(b: Board, center: Pair, distance: real): (r: Board)
    requires b.HasLast() && b.Last().Drag? && b.Last().drag.scaleDistance > 0.0
    ensures r.(commitActions := b.commitActions, currentBoardSize := b.currentBoardSize) == b
    ensures |r.commitActions| == |b.commitActions|
    ensures r.commitActions[..|b.commitActions| - 1] == b.commitActions[..|b.commitActions| - 1]
    ensures r.Last().Drag? && r.Last().drag.(dragCenter := b.Last().drag.dragCenter) == b.Last().drag
    ensures var d := b.Last().drag;
            var candidate := ZoomCandidate(b.currentBoardSize, d.prevBoardSize, distance / d.scaleDistance);
            if Covers(candidate, b.canvasSize)
            then r.currentBoardSize == candidate && r.Last().drag.dragCenter == center
            else r == b
  {
    var lastAction := b.Last().drag;
    var scaleMultiple := distance / lastAction.scaleDistance;
    var after := ZoomCandidate(b.currentBoardSize, lastAction.prevBoardSize, scaleMultiple);
    if after.first < b.canvasSize.first || after.second < b.canvasSize.second then
      b
    else
      var offsetX := center.first - lastAction.dragCenter.first;
      var offsetY := center.second - lastAction.dragCenter.second;
      var moved := lastAction.(dragCenter := Pair(lastAction.dragCenter.first + offsetX,
                                                  lastAction.dragCenter.second + offsetY));
      var n := |b.commitActions|;
      b.(commitActions := b.commitActions[..n - 1] + [Drag(moved)], currentBoardSize := after)
  }

  /**
   * A multi-finger frame once the off-screen image exists, with `center` the
   * fingers' centre: the frame opens a pan/zoom action if the gesture has
   * none, then computes the zoomed board size from the ratio of the finger
   * distance to the gesture's starting distance. A size below the canvas in
   * either dimension is rejected: the board size and the action's centre stay
   * as they were. An accepted size becomes the board size and the action's
   * centre moves to `center`. The starting distance and size are never
   * updated, so the ratio is always taken from gesture start.
   */
  function DragFrame(b: Board, center: Pair, distance: real): (r: Board)
    requires distance > 0.0 && DragContinuable(b)
    ensures r.(commitActions := b.commitActions, currentBoardSize := b.currentBoardSize) == b
    ensures KeepsHistory(b, r)
    ensures |r.commitActions| == |b.commitActions| + (if OpensDrag(b) then 1 else 0)
    ensures r.currentBoardSize == b.currentBoardSize || Covers(r.currentBoardSize, r.canvasSize)
    ensures r.HasLast() && r.Last().Drag?
    ensures var d := GestureDrag(b, center, distance);
            && r.Last().drag.(dragCenter := d.dragCenter) == d
            && var candidate := ZoomCandidate(b.currentBoardSize, d.prevBoardSize, distance / d.scaleDistance);
            && (if Covers(candidate, b.canvasSize)
                then r.currentBoardSize == candidate && r.Last().drag.dragCenter == center
                else r.currentBoardSize == b.currentBoardSize && r.Last().drag.dragCenter == d.dragCenter)
    ensures OpensDrag(b) ==>
              && r.Last().drag.actionVersion == b.actionVersion
              && r.Last().drag.scaleDistance == distance
              && r.Last().drag.prevBoardSize == b.currentBoardSize
  {
    ZoomFrame(OpenDrag(b, center, distance), center, distance)
  }

  /**
   * A frame with two or more fingers. Nothing happens before the off-screen
   * image exists; afterwards the frame pans and zooms around the centre of
   * all the fingers, as `DragFrame` describes. `distance` is the distance
   * between the first two fingers.
   */
  function ExecScaleDrag(b: Board, touches: seq<Pair>, distance: real): (r: Board)
    requires |touches| >= 2 && distance > 0.0
    requires b.offScreenImage ==> DragContinuable(b)
    ensures !b.offScreenImage ==> r == b
    ensures r.(commitActions := b.commitActions, currentBoardSize := b.currentBoardSize) == b
    ensures KeepsHistory(b, r)
    ensures |r.commitActions| == |b.commitActions| + (if b.offScreenImage && OpensDrag(b) then 1 else 0)
    ensures r.currentBoardSize == b.currentBoardSize || Covers(r.currentBoardSize, r.canvasSize)
    ensures b.offScreenImage ==>
              && r.HasLast() && r.Last().Drag?
              && var d := GestureDrag(b, Centroid(touches), distance);
              && r.Last().drag.(dragCenter := d.dragCenter) == d
              && var candidate := ZoomCandidate(b.currentBoardSize, d.prevBoardSize, distance / d.scaleDistance);
              && (if Covers(candidate, b.canvasSize)
                  then r.currentBoardSize == candidate && r.Last().drag.dragCenter == Centroid(touches)
                  else r.currentBoardSize == b.currentBoardSize && r.Last().drag.dragCenter == d.dragCenter)
    ensures b.offScreenImage && OpensDrag(b) ==>
              && r.Last().drag.actionVersion == b.actionVersion
              && r.Last().drag.scaleDistance == distance
              && r.Last().drag.prevBoardSize == b.currentBoardSize
  {
    if !b.offScreenImage then b
    else DragFrame(b, Centroid(touches), distance)
  }

  /**
   * The frame's requirements as the touch-move handler sees them: a frame with
   * several fingers comes with their positive distance and, once the
   * off-screen image exists, can be handled as pan/zoom.
   */
  predicate MoveAllowed(b: Board, touches: seq<Pair>, distance: real)
  {
    |touches| > 1 ==> distance > 0.0 && (b.offScreenImage ==> DragContinuable(b))
  }

  /**
   * Routes a touch-move frame by finger count and status: no finger does
   * nothing; one finger writes in handwriting mode and does nothing in eraser
   * or no-edit mode; two or more fingers pan and zoom. A move never changes
   * the gesture counter and never drops an earlier action.
   */
  function BoardTouchMove(b: Board, touches: seq<Pair>, distance: real): (r: Board)
    requires MoveAllowed(b, touches, distance)
    ensures |touches| == 0 ==> r == b
    ensures |touches| == 1 && b.status == HANDWRITING ==> r == ExecHandWriting(b, touches)
    ensures |touches| == 1 && b.status != HANDWRITING ==> r == b
    ensures |touches| > 1 ==> r == ExecScaleDrag(b, touches, distance)
    ensures r.actionVersion == b.actionVersion && r.status == b.status
    ensures KeepsHistory(b, r)
  {
    if |touches| == 0 then b
    else if |touches| == 1 then
      match b.status
      case HANDWRITING => ExecHandWriting(b, touches)
      case ERASER => b
      case NOEDIT => b
    else ExecScaleDrag(b, touches, distance)
  }

  /** Appending an action of the current gesture keeps the history invariants. */
  lemma AppendKeepsValid(b: Board, r: Board, x: Action)
    requires Valid(b)
    requires r.commitActions == b.commitActions + [x]
    requires x.Version() == b.actionVersion && (x.Drag? ==> x.drag.scaleDistance > 0.0)
    requires r.actionVersion == b.actionVersion && Covers(r.currentBoardSize, r.canvasSize)
    ensures Valid(r)
  {
    forall i | 0 <= i < |r.commitActions|
      ensures r.commitActions[i].Version() <= r.actionVersion
    {
      if i < |b.commitActions| {
        assert r.commitActions[i] == b.commitActions[i];
      }
    }
  }

  /** Replacing the last action by one of the same gesture keeps the history invariants. */
  lemma ReplaceLastKeepsValid(b: Board, r: Board, x: Action)
    requires Valid(b) && b.HasLast()
    requires r.commitActions == b.commitActions[..|b.commitActions| - 1] + [x]
    requires x.Version() == b.Last().Version() && (x.Drag? ==> x.drag.scaleDistance > 0.0)
    requires r.actionVersion == b.actionVersion && Covers(r.currentBoardSize, r.canvasSize)
    ensures Valid(r)
  {
    var n := |b.commitActions|;
    forall i | 0 <= i < n - 1
      ensures r.commitActions[i] == b.commitActions[i]
    {
    }
  }

  /** A handwriting frame keeps every board invariant. */
  lemma HandWritingKeepsValid(b: Board, touches: seq<Pair>)
    requires Valid(b) && |touches| > 0
    ensures Valid(ExecHandWriting(b, touches))
  {
    var r := ExecHandWriting(b, touches);
    if ContinuesStroke(b) {
      ReplaceLastKeepsValid(b, r, r.Last());
    } else {
      AppendKeepsValid(b, r, r.Last());
    }
  }

  /** A pan/zoom frame keeps every board invariant. */
  lemma ScaleDragKeepsValid(b: Board, touches: seq<Pair>, distance: real)
    requires Valid(b) && |touches| >= 2 && distance > 0.0 && (b.offScreenImage ==> DragContinuable(b))
    ensures Valid(ExecScaleDrag(b, touches, distance))
  {
    var r := ExecScaleDrag(b, touches, distance);
    if b.offScreenImage {
      var n := |b.commitActions|;
      if OpensDrag(b) {
        assert r.commitActions == b.commitActions + [r.Last()];
        AppendKeepsValid(b, r, r.Last());
      } else {
        assert r.commitActions == b.commitActions[..n - 1] + [r.Last()];
        ReplaceLastKeepsValid(b, r, r.Last());
      }
    }
  }

  /** Touch moves keep every board invariant. */
  lemma TouchMoveKeepsValid(b: Board, touches: seq<Pair>, distance: real)
    requires Valid(b) && MoveAllowed(b, touches, distance)
    ensures Valid(BoardTouchMove(b, touches, distance))
  {
    if |touches| == 1 && b.status == HANDWRITING {
      HandWritingKeepsValid(b, touches);
    } else if |touches| > 1 {
      ScaleDragKeepsValid(b, touches, distance);
    }
  }

  datatype EndOutcome = Ended(board: Board) | ReloadFailed

  /**
   * The frame closes a gesture whose last action is a stroke or an erase
   * track, which must be snapshotted to the off-screen image.
   */
  predicate NeedsSnapshot(b: Board, touches: seq<Pair>)
  {
    |touches| == 0 && b.HasLast() && b.Last().Version() == b.actionVersion
    && (b.Last().Write? || b.Last().Erase?)
  }

  /**
   * A touch-end frame. When every finger has lifted and something was
   * committed, the gesture closes: if the last action is a stroke or an erase
   * track of this gesture, it is snapshotted off-screen and the image is
   * reloaded, which may fail (`reloadOk`); a failed reload rejects the whole
   * call before the counter moves. Otherwise, and after a successful reload,
   * `actionVersion` advances by one. A frame with fingers still down, or an
   * empty history, changes nothing.
   */
  function BoardTouchEnd(b: Board, touches: seq<Pair>, reloadOk: bool): (r: EndOutcome)
    ensures r.ReloadFailed? <==> NeedsSnapshot(b, touches) && !reloadOk
    ensures r.Ended? ==>
              && (r.board.actionVersion == b.actionVersion + 1 <==> |touches| == 0 && b.HasLast())
              && (r.board.actionVersion == b.actionVersion <==> !(|touches| == 0 && b.HasLast()))
              && (r.board.offScreenImage <==> b.offScreenImage || NeedsSnapshot(b, touches))
              && r.board.(actionVersion := b.actionVersion, offScreenImage := b.offScreenImage) == b
  {
    if |touches| == 0 && b.HasLast() then
      var lastAction := b.Last();
      if lastAction.Version() == b.actionVersion && (lastAction.Write? || lastAction.Erase?) then
        if reloadOk then Ended(b.(offScreenImage := true, actionVersion := b.actionVersion + 1))
        else ReloadFailed
      else
        Ended(b.(actionVersion := b.actionVersion + 1))
    else Ended(b)
  }

  /** Closing a gesture keeps every board invariant. */
  lemma TouchEndKeepsValid(b: Board, touches: seq<Pair>, reloadOk: bool)
    requires Valid(b)
    ensures BoardTouchEnd(b, touches, reloadOk).Ended? ==> Valid(BoardTouchEnd(b, touches, reloadOk).board)
  {
  }

  /** After a gesture closes, the next frame cannot continue any committed action. */
  lemma TouchEndOpensNextGesture(b: Board, reloadOk: bool)
    requires Valid(b) && b.HasLast()
    ensures var r := BoardTouchEnd(b, [], reloadOk);
            r.Ended? ==> !ContinuesStroke(r.board) && OpensDrag(r.board)
  {
    assert b.Last().Version() <= b.actionVersion;
  }

  /** Feeds one single-finger move frame per point, in order. */
  function WriteFrames(b: Board, pts: seq<Pair>): Board
    decreases |pts|
  {
    if pts == [] then b
    else BoardTouchMove(WriteFrames(b, pts[..|pts| - 1]), [pts[|pts| - 1]], 0.0)
  }

  /** The board `b` with one more stroke of its current gesture, holding `pts`. */
  function WithStroke(b: Board, pts: seq<Pair>): Board
  {
    b.(commitActions := b.commitActions
         + [Write(HandwritingAction.Handwriting(pts, Pair(0.0, 0.0), b.actionVersion,
                                                b.handwritingColor, b.handwritingWidth))])
  }

  /** A one-finger frame that starts a stroke appends a one-point stroke of the current gesture. */
  lemma OpenStrokeFrame(b: Board, p: Pair)
    requires b.status == HANDWRITING && !ContinuesStroke(b)
    ensures BoardTouchMove(b, [p], 0.0) == WithStroke(b, [p])
  {
  }

  /** A one-finger frame that continues the gesture's stroke appends the point to it in place. */
  lemma ContinueStrokeFrame(b: Board, q: seq<Pair>, p: Pair)
    requires b.status == HANDWRITING
    ensures BoardTouchMove(WithStroke(b, q), [p], 0.0) == WithStroke(b, q + [p])
  {
    var c := WithStroke(b, q);
    var n := |c.commitActions|;
    assert ContinuesStroke(c);
    assert c.commitActions[..n - 1] == b.commitActions;
  }

  /**
   * In handwriting mode, a one-finger gesture that does not continue an
   * earlier stroke commits exactly one new stroke of the current version,
   * colour and width, holding every touched point in order.
   */
  lemma {:induction false} StrokeGesture(b: Board, pts: seq<Pair>)
    requires b.status == HANDWRITING && pts != [] && !ContinuesStroke(b)
    ensures WriteFrames(b, pts) == WithStroke(b, pts)
    decreases |pts|
  {
    var q := pts[..|pts| - 1];
    var p := pts[|pts| - 1];
    assert q + [p] == pts;
    if q != [] {
      StrokeGesture(b, q);
      ContinueStrokeFrame(b, q, p);
    } else {
      OpenStrokeFrame(b, p);
    }
  }

  /**
   * Drawing (10,10), (20,10), (20,20) on a fresh board in handwriting mode
   * and lifting the finger commits one stroke with exactly that track and
   * advances the gesture counter.
   */
  lemma OneStrokeScenario(canvasSize: Pair)
    ensures var b := Init(canvasSize).(status := HANDWRITING);
            var pts := [Pair(10.0, 10.0), Pair(20.0, 10.0), Pair(20.0, 20.0)];
            var r := BoardTouchEnd(WriteFrames(b, pts), [], true);
            && r.Ended?
            && |r.board.commitActions| == 1
            && r.board.commitActions[0].Write?
            && r.board.commitActions[0].stroke.points == pts
            && r.board.actionVersion == 1
  {
    var b := Init(canvasSize).(status := HANDWRITING);
    StrokeGesture(b, [Pair(10.0, 10.0), Pair(20.0, 10.0), Pair(20.0, 20.0)]);
  }

  /**
   * Before the off-screen image exists, a second finger landing during a
   * stroke is accepted and ignored: the stroke stays as drawn.
   */
  lemma SecondFingerWithoutImage(canvasSize: Pair, p: Pair, q: Pair, distance: real)
    requires distance > 0.0
    ensures var b := BoardTouchMove(Init(canvasSize).(status := HANDWRITING), [p], 0.0);
            && ContinuesStroke(b)
            && MoveAllowed(b, [p, q], distance)
            && BoardTouchMove(b, [p, q], distance) == b
  {
  }

  /**
   * With the finger distance unchanged since the gesture started the ratio
   * is 1, which counts as zooming in: the board grows by its size at gesture
   * start on every such frame, and the board position does not move.
   */
  lemma SteadyFingersGrowBoard(b: Board, touches: seq<Pair>)
    requires |touches| >= 2 && b.offScreenImage && Valid(b)
    requires b.HasLast() && b.Last().Drag? && b.Last().Version() == b.actionVersion
    requires b.Last().drag.prevBoardSize.first >= 0.0 && b.Last().drag.prevBoardSize.second >= 0.0
    ensures var r := ExecScaleDrag(b, touches, b.Last().drag.scaleDistance);
            var prev := b.Last().drag.prevBoardSize;
            && r.currentBoardSize == Pair(b.currentBoardSize.first + prev.first, b.currentBoardSize.second + prev.second)
            && r.currentBoardPosition == b.currentBoardPosition
  {
    var d := b.Last().drag;
    assert d.scaleDistance > 0.0;
    assert d.scaleDistance / d.scaleDistance == 1.0;
  }

  /**
   * Panning: within a pan/zoom gesture, an accepted frame whose fingers have
   * all moved by `delta` from `touches` records their centre moved by exactly
   * `delta`.
   */
  lemma PanFollowsFingers(b: Board, touches: seq<Pair>, delta: Pair, distance: real)
    requires b.offScreenImage && |touches| >= 2 && distance > 0.0
    requires b.HasLast() && b.Last().Drag? && b.Last().Version() == b.actionVersion
    requires b.Last().drag.scaleDistance > 0.0
    requires Covers(ZoomCandidate(b.currentBoardSize, b.Last().drag.prevBoardSize,
                                  distance / b.Last().drag.scaleDistance), b.canvasSize)
    ensures var r := ExecScaleDrag(b, Translate(touches, delta), distance);
            var c := Centroid(touches);
            && r.Last().Drag?
            && r.Last().drag.dragCenter == Pair(c.first + delta.first, c.second + delta.second)
  {
    CentroidTranslate(touches, delta);
  }
}
