/**
 * An eraser track: an append-only list of points painted in the background
 * colour. `AddPoint` stores the point as given and draws one incremental
 * segment; `ReDraw` replays the track and strokes after every segment.
 */
module EraserAction {
  import opened Geometry
  import opened Canvas

  datatype Eraser = Eraser(points: seq<Pair>, actionVersion: int, ctxColor: string, width: real)

  function New(actionVersion: int, ctxColor: string, width: real): (e: Eraser)
    ensures e.points == []
    ensures e.actionVersion == actionVersion && e.ctxColor == ctxColor && e.width == width
  {
    Eraser([], actionVersion, ctxColor, width)
  }

  /**
   * Appends `point` unchanged and draws it: the first point sets up the paint
   * and moves to the rounded point; every later one draws a rounded segment
   * and strokes it.
   */
  function AddPoint(e: Eraser, point: Pair): (r: (Eraser, seq<Command>))
    ensures r.0.points == e.points + [point]
    ensures r.0.(points := e.points) == e
    ensures |e.points| == 0 ==> r.1 == PaintStyle(e.ctxColor, e.width) + [Vertex(point, true)]
    ensures |e.points| > 0 ==> r.1 == [Vertex(point, false), Stroke]
  {
    var e' := e.(points := e.points + [point]);
    var curr := e'.points[|e'.points| - 1];
    if |e'.points| == 1 then
      (e', PaintStyle(e.ctxColor, e.width) + [Vertex(curr, true)])
    else
      (e', [Vertex(curr, false), Stroke])
  }

  /**
   * The body of the `reDraw` loop: `moveTo` for the first point (`started` is
   * the loop's `isStart` flag), `lineTo` followed by `stroke` for every other.
   */
  function Walk(points: seq<Pair>, started: bool): (r: seq<Command>)
    ensures |r| == if points != [] && !started then 2 * |points| - 1 else 2 * |points|
    decreases |points|
  {
    if points == [] then []
    else
      (if started then [Vertex(points[0], false), Stroke] else [Vertex(points[0], true)])
        + Walk(points[1..], true)
  }

  /**
   * Replays the whole track: nothing for an empty track; otherwise the paint
   * set-up, with the width multiplied by `scale`, followed by the loop's trace.
   */
  function ReDraw(e: Eraser, scale: real, boardLeftTopVertex: Pair, canvasSize: Pair): (r: seq<Command>)
    ensures e.points == [] <==> r == []
    ensures e.points != [] ==>
              && |r| == 2 * |e.points| + 3 && r[0] == BeginPath && r[1] == StrokeStyle(e.ctxColor)
              && r[2] == LineWidth(ScaledWidth(scale, e.width)) && r[3] == LineJoin("round")
  {
    if e.points == [] then []
    else PaintStyle(e.ctxColor, ScaledWidth(scale, e.width)) + Walk(e.points, false)
  }

  /** Once the path is open, the loop draws point `i`'s `lineTo` followed immediately by a stroke. */
  lemma {:induction false} WalkStartedAt(points: seq<Pair>, i: nat)
    requires i < |points|
    ensures Walk(points, true)[2 * i] == Vertex(points[i], false)
    ensures Walk(points, true)[2 * i + 1] == Stroke
    decreases i
  {
    var tail := Walk(points[1..], true);
    assert Walk(points, true) == [Vertex(points[0], false), Stroke] + tail;
    if i > 0 {
      WalkStartedAt(points[1..], i - 1);
      assert points[1..][i - 1] == points[i];
    }
  }

  /**
   * After the opening `moveTo`, the loop draws point `i`'s `lineTo` followed
   * immediately by a stroke. (No induction here: `{:induction false}` keeps
   * Dafny from adding an induction hypothesis the proof does not use.)
   */
  lemma {:induction false} WalkAt(points: seq<Pair>, i: nat)
    requires 1 <= i < |points|
    ensures Walk(points, false)[2 * i - 1] == Vertex(points[i], false)
    ensures Walk(points, false)[2 * i] == Stroke
  {
    var tail := Walk(points[1..], true);
    assert Walk(points, false) == [Vertex(points[0], true)] + tail;
    WalkStartedAt(points[1..], i - 1);
    assert points[1..][i - 1] == points[i];
  }

  /**
   * The `reDraw` loop's trace position by position: a `moveTo` for the first
   * point, then for every later point its `lineTo` immediately followed by a
   * stroke. `{:induction false}` again keeps out an unused induction hypothesis.
   */
  lemma {:induction false} WalkPositions(points: seq<Pair>)
    requires points != []
    ensures Walk(points, false)[0] == Vertex(points[0], true)
    ensures forall i :: 1 <= i < |points| ==>
              Walk(points, false)[2 * i - 1] == Vertex(points[i], false) && Walk(points, false)[2 * i] == Stroke
  {
    forall i | 1 <= i < |points|
      ensures Walk(points, false)[2 * i - 1] == Vertex(points[i], false) && Walk(points, false)[2 * i] == Stroke
    {
      WalkAt(points, i);
    }
  }

  /** The loop draws one rounded vertex per point and strokes after every `lineTo`. */
  lemma {:induction false} WalkGeometry(points: seq<Pair>, started: bool)
    ensures PathOf(Walk(points, started))
         == seq(|points|, i requires 0 <= i < |points| => Vertex(points[i], i == 0 && !started))
    ensures StrokeCount(Walk(points, started)) == if points != [] && !started then |points| - 1 else |points|
    decreases |points|
  {
    if points != [] {
      var head := if started then [Vertex(points[0], false), Stroke] else [Vertex(points[0], true)];
      var tail := Walk(points[1..], true);
      assert Walk(points, started) == head + tail;
      WalkGeometry(points[1..], true);
      PathOfAppend(head, tail);
      StrokeCountAppend(head, tail);
      assert started ==> head[1..] == [Stroke] && head[1..][1..] == [];
    }
  }

  /**
   * Replaying draws the rounded polyline of the track whatever the scale, the
   * board's top-left vertex and the canvas size, and strokes `|points| - 1`
   * times, so a single point is never stroked.
   */
  lemma ReDrawGeometry(e: Eraser, scale: real, boardLeftTopVertex: Pair, canvasSize: Pair)
    ensures PathOf(ReDraw(e, scale, boardLeftTopVertex, canvasSize)) == RoundedPath(e.points)
    ensures e.points != [] ==> StrokeCount(ReDraw(e, scale, boardLeftTopVertex, canvasSize)) == |e.points| - 1
  {
    if e.points != [] {
      var style := PaintStyle(e.ctxColor, ScaledWidth(scale, e.width));
      var w := Walk(e.points, false);
      ReDrawUnfold(e, scale, boardLeftTopVertex, canvasSize);
      PathOfAppend(style, w);
      StrokeCountAppend(style, w);
      PaintStyleIsSilent(e.ctxColor, ScaledWidth(scale, e.width));
      WalkGeometry(e.points, false);
    }
  }

  /** Feeds `pts` to `AddPoint` one after another; the track and the concatenated trace. */
  function AddAll(e: Eraser, pts: seq<Pair>): (r: (Eraser, seq<Command>))
    ensures r.0.points == e.points + pts
    ensures r.0.(points := e.points) == e
    decreases |pts|
  {
    if pts == [] then (e, [])
    else
      var prefix := AddAll(e, pts[..|pts| - 1]);
      var step := AddPoint(prefix.0, pts[|pts| - 1]);
      assert step.0.points == e.points + pts[..|pts| - 1] + [pts[|pts| - 1]];
      assert pts[..|pts| - 1] + [pts[|pts| - 1]] == pts;
      (step.0, prefix.1 + step.1)
  }

  /** Appending a point to the `reDraw` loop's input appends that point's commands to its trace. */
  lemma {:induction false} WalkSnoc(points: seq<Pair>, p: Pair, started: bool)
    ensures Walk(points + [p], started)
         == Walk(points, started)
            + (if points == [] && !started then [Vertex(p, true)] else [Vertex(p, false), Stroke])
    decreases |points|
  {
    if points == [] {
      assert [p][1..] == [];
    } else {
      assert (points + [p])[1..] == points[1..] + [p];
      WalkSnoc(points[1..], p, true);
    }
  }

  /** A non-empty track replays as its paint set-up followed by the loop's trace. */
  lemma ReDrawUnfold(e: Eraser, scale: real, v: Pair, c: Pair)
    requires e.points != []
    ensures ReDraw(e, scale, v, c) == PaintStyle(e.ctxColor, ScaledWidth(scale, e.width)) + Walk(e.points, false)
  {
    assert ReDraw(e, scale, v, c)
        == if e.points == [] then [] else PaintStyle(e.ctxColor, ScaledWidth(scale, e.width)) + Walk(e.points, false);
  }

  /** Erasing one more point of a fresh track appends that point's commands to the trace. */
  lemma EraseStep(e: Eraser, q: seq<Pair>, p: Pair)
    requires e.points == []
    ensures AddAll(e, q + [p]).1
         == AddAll(e, q).1
            + (if q == [] then PaintStyle(e.ctxColor, e.width) + [Vertex(p, true)] else [Vertex(p, false), Stroke])
  {
    var pts := q + [p];
    assert pts[..|pts| - 1] == q;
    var prefix := AddAll(e, q);
    assert AddAll(e, pts).1 == prefix.1 + AddPoint(prefix.0, p).1;
    assert prefix.0.points == q;
  }

  /**
   * Erasing a fresh track point by point issues the paint set-up once and
   * then exactly the trace of the `reDraw` loop over the same points.
   */
  lemma {:induction false} IncrementalTrace(e: Eraser, pts: seq<Pair>)
    requires e.points == []
    ensures AddAll(e, pts).1 == if pts == [] then [] else PaintStyle(e.ctxColor, e.width) + Walk(pts, false)
    decreases |pts|
  {
    if pts != [] {
      var q := pts[..|pts| - 1];
      var p := pts[|pts| - 1];
      assert q + [p] == pts;
      EraseStep(e, q, p);
      WalkSnoc(q, p, false);
      if q != [] {
        IncrementalTrace(e, q);
      }
    }
  }

  /**
   * Erasing point by point and replaying the track at scale 1 issue the very
   * same commands: the same paint set-up, the same rounded vertices and the
   * same strokes, in the same order.
   */
  lemma IncrementalMatchesReDraw(e: Eraser, pts: seq<Pair>, boardLeftTopVertex: Pair, canvasSize: Pair)
    requires e.points == []
    ensures AddAll(e, pts).0.points == pts
    ensures AddAll(e, pts).1 == ReDraw(AddAll(e, pts).0, 1.0, boardLeftTopVertex, canvasSize)
  {
    IncrementalTrace(e, pts);
    var whole := AddAll(e, pts).0;
    if pts != [] {
      ReDrawUnfold(whole, 1.0, boardLeftTopVertex, canvasSize);
      assert ScaledWidth(1.0, e.width) == e.width;
    }
  }
}
