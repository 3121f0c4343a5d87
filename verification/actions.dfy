/**
 * The earlier drawing engine: a list of committed handwriting strokes keyed
 * by a caller-supplied gesture id, and a global zoom factor that never drops
 * below 1 (the off-screen image must always fill the canvas).
 */
module ActionsEngine {
  import opened Geometry
  import HandwritingAction
  import ScaleAction

  datatype Option<T> = None | Some(value: T)

  type Stroke = HandwritingAction.Handwriting

  /**
   * `offScreenImage` says whether an off-screen image has been loaded; the
   * image itself is not modelled. `dpr` is the device pixel ratio of the host.
   */
  datatype Actions = Actions(
    commitActions: seq<Stroke>,
    rollbackActions: seq<Stroke>,
    currentScale: real,
    currentScaleAction: Option<ScaleAction.Scale>,
    currentLeftTopVertex: Pair,
    dpr: real,
    offScreenImage: bool)

  /** The engine's standing invariant: the global zoom is at least 1. */
  predicate Valid(a: Actions)
  {
    a.currentScale >= 1.0
  }

  function Init(dpr: real): (a: Actions)
    ensures a.commitActions == [] && a.rollbackActions == []
    ensures a.currentScale == 1.0 && a.currentScaleAction == None
    ensures a.currentLeftTopVertex == Pair(0.0, 0.0) && !a.offScreenImage
    ensures a.dpr == dpr
    ensures Valid(a)
  {
    Actions([], [], 1.0, None, Pair(0.0, 0.0), dpr, false)
  }

  /** The last committed stroke continues gesture `id`. */
  predicate Continues(a: Actions, id: int)
  {
    |a.commitActions| > 0 && a.commitActions[|a.commitActions| - 1].actionVersion == id
  }

  /**
   * Adds the touch point (x, y) of gesture `id`: to the last stroke when it
   * belongs to the same gesture, otherwise to a new one-point stroke in the
   * given colour and width. Nothing else changes.
   */
  function ExecHandWriting(a: Actions, id: int, x: real, y: real, ctxColor: string, lineWidth: real): (r: Actions)
    ensures r.(commitActions := a.commitActions) == a
    ensures Continues(a, id) ==>
              var n := |a.commitActions|;
              && |r.commitActions| == n
              && r.commitActions[..n - 1] == a.commitActions[..n - 1]
              && r.commitActions[n - 1].points == a.commitActions[n - 1].points + [Pair(x, y)]
              && r.commitActions[n - 1].(points := a.commitActions[n - 1].points) == a.commitActions[n - 1]
    ensures !Continues(a, id) ==>
              && |r.commitActions| == |a.commitActions| + 1
              && r.commitActions[..|a.commitActions|] == a.commitActions
              && var s := r.commitActions[|a.commitActions|];
              && s.points == [Pair(x, y)] && s.actionVersion == id
              && s.ctxColor == ctxColor && s.width == lineWidth
  {
    var point := Pair(x, y);
    if Continues(a, id) then
      var n := |a.commitActions|;
      var last := a.commitActions[n - 1];
      a.(commitActions := a.commitActions[..n - 1] + [last.(points := last.points + [point])])
    else
      var stroke := HandwritingAction.New(id, ctxColor, lineWidth, Pair(0.0, 0.0));
      a.(commitActions := a.commitActions + [stroke.(points := [point])])
  }

  /** Feeds the points of one gesture `id` to `ExecHandWriting`, in order. */
  function WriteAll(a: Actions, id: int, pts: seq<Pair>, ctxColor: string, lineWidth: real): Actions
    decreases |pts|
  {
    if pts == [] then a
    else
      var p := pts[|pts| - 1];
      ExecHandWriting(WriteAll(a, id, pts[..|pts| - 1], ctxColor, lineWidth), id, p.first, p.second, ctxColor, lineWidth)
  }

  /** The engine `a` with one more stroke of gesture `id`, holding `pts`. */
  function WithStroke(a: Actions, id: int, pts: seq<Pair>, ctxColor: string, lineWidth: real): Actions
  {
    a.(commitActions := a.commitActions + [HandwritingAction.Handwriting(pts, Pair(0.0, 0.0), id, ctxColor, lineWidth)])
  }

  /** A later point of the gesture is appended, in place, to the stroke the gesture opened. */
  lemma ContinueStroke(a: Actions, id: int, q: seq<Pair>, p: Pair, ctxColor: string, lineWidth: real)
    ensures ExecHandWriting(WithStroke(a, id, q, ctxColor, lineWidth), id, p.first, p.second, ctxColor, lineWidth)
         == WithStroke(a, id, q + [p], ctxColor, lineWidth)
  {
    var b := WithStroke(a, id, q, ctxColor, lineWidth);
    assert Continues(b, id);
    assert b.commitActions[..|b.commitActions| - 1] == a.commitActions;
  }

  /**
   * A gesture that does not continue the last stroke commits exactly one new
   * stroke holding all of its points in order; earlier strokes are untouched.
   */
  lemma {:induction false} GestureIsOneStroke(a: Actions, id: int, pts: seq<Pair>, ctxColor: string, lineWidth: real)
    requires !Continues(a, id) && pts != []
    ensures WriteAll(a, id, pts, ctxColor, lineWidth) == WithStroke(a, id, pts, ctxColor, lineWidth)
    decreases |pts|
  {
    var q := pts[..|pts| - 1];
    var p := pts[|pts| - 1];
    assert q + [p] == pts;
    if q != [] {
      GestureIsOneStroke(a, id, q, ctxColor, lineWidth);
      ContinueStroke(a, id, q, p, ctxColor, lineWidth);
    } else {
      assert pts == [p];
    }
  }

  /** A frame of gesture `id` needs a new zoom step: there is none, or it belongs to another gesture. */
  predicate OpensStep(a: Actions, id: int)
  {
    a.currentScaleAction.None? || a.currentScaleAction.value.id != id
  }

  /** The global zoom a frame of `scale` asks for from zoom step `s`: `scale` times the zoom the step started from. */
  function GlobalScale(s: ScaleAction.Scale, scale: real): (r: real)
    ensures scale == 1.0 ==> r == s.originScale
    ensures s.originScale >= 0.0 && scale >= 1.0 ==> r >= s.originScale
    ensures s.originScale >= 0.0 && 0.0 <= scale <= 1.0 ==> r <= s.originScale
  {
    ProductNonNegative(s.originScale, scale - 1.0);
    ProductNonNegative(s.originScale, 1.0 - scale);
    s.originScale * scale
  }

  /**
   * `scale`: zooms the canvas to `scale` times the zoom the gesture `id`
   * started from. Nothing happens before an off-screen image exists. A new
   * zoom step, starting from the current global zoom, is opened when there is
   * none or it belongs to another gesture. A zoom below 1 is rejected and
   * leaves the global zoom as it was. The committed strokes are never touched.
   */
  function Scale(a: Actions, id: int, scale: real): (r: Actions)
    ensures !a.offScreenImage ==> r == a
    ensures r.(currentScale := a.currentScale, currentScaleAction := a.currentScaleAction) == a
    ensures a.offScreenImage ==> r.currentScaleAction.Some?
    ensures a.offScreenImage && OpensStep(a, id) ==> r.currentScaleAction.value == ScaleAction.New(id, a.currentScale)
    ensures a.offScreenImage && !OpensStep(a, id) ==> r.currentScaleAction == a.currentScaleAction
    ensures a.offScreenImage ==>
              var zoom := GlobalScale(r.currentScaleAction.value, scale);
              r.currentScale == if zoom < 1.0 then a.currentScale else zoom
    ensures r.currentScale == a.currentScale || r.currentScale >= 1.0
  {
    if !a.offScreenImage then a
    else
      var step :=
        if OpensStep(a, id)
        then ScaleAction.New(id, a.currentScale)
        else a.currentScaleAction.value;
      var a' := a.(currentScaleAction := Some(step));
      var globalScale := GlobalScale(step, scale);
      if globalScale < 1.0 then a'
      else a'.(currentScale := globalScale)
  }

  /** Neither operation can take the global zoom below 1. */
  lemma OperationsKeepValid(a: Actions, id: int, x: real, y: real, ctxColor: string, lineWidth: real, scale: real)
    requires Valid(a)
    ensures Valid(ExecHandWriting(a, id, x, y, ctxColor, lineWidth))
    ensures Valid(Scale(a, id, scale))
  {
  }

  /**
   * Within one gesture the zoom is measured from the gesture's start, not
   * compounded frame by frame: the second frame reuses the zoom step the first
   * one opened, and the global zoom becomes the starting zoom times the new
   * factor whatever the first factor was.
   */
  lemma ZoomFromGestureStart(a: Actions, id: int, s1: real, s2: real)
    requires a.offScreenImage
    requires OpensStep(a, id)
    ensures var a1 := Scale(a, id, s1);
            var a2 := Scale(a1, id, s2);
            && a2.currentScaleAction == a1.currentScaleAction
            && a2.currentScaleAction.value.originScale == a.currentScale
            && var zoom := GlobalScale(ScaleAction.New(id, a.currentScale), s2);
            && (zoom >= 1.0 ==> a2.currentScale == zoom)
            && (zoom < 1.0 ==> a2.currentScale == a1.currentScale)
  {
  }
}
