/**
 * A handwriting stroke: an append-only list of points with paint attributes.
 * `AddPoint` stores a point and draws one incremental segment; `ReDraw`
 * replays the whole stroke onto a surface of a given board size.
 */
module HandwritingAction {
  import opened Geometry
  import opened Canvas

  /**
   * `points` are stored at scale 1, relative to the board's top-left corner;
   * `offset` is the stroke's distance from the canvas's top-left corner.
   */
  datatype Handwriting = Handwriting(
    points: seq<Pair>,
    offset: Pair,
    actionVersion: int,
    ctxColor: string,
    width: real)

  function New(actionVersion: int, ctxColor: string, width: real, offset: Pair): (h: Handwriting)
    ensures h.points == []
    ensures h.offset == offset && h.actionVersion == actionVersion
    ensures h.ctxColor == ctxColor && h.width == width
  {
    Handwriting([], offset, actionVersion, ctxColor, width)
  }

  /** The board's zoom relative to the physical canvas: `boardSize.first / canvas.width`. */
  function BoardScale(boardSize: Pair, canvasWidth: real): (r: real)
    requires canvasWidth != 0.0
    ensures boardSize.first == canvasWidth ==> r == 1.0
    ensures canvasWidth > 0.0 && boardSize.first >= canvasWidth ==> r >= 1.0
  {
    QuotientAtLeastOne(boardSize.first, canvasWidth);
    boardSize.first / canvasWidth
  }

  /**
   * Appends `point`, shifted by the stroke's offset at the current zoom, and
   * draws it: the first point opens a path at the rounded raw point, every
   * later point adds one rounded segment and strokes it.
   */
  function AddPoint(h: Handwriting, point: Pair, boardSize: Pair, canvasWidth: real): (r: (Handwriting, seq<Command>))
    requires canvasWidth != 0.0 && boardSize.first != 0.0
    ensures |r.0.points| == |h.points| + 1 && r.0.points[..|h.points|] == h.points
    ensures r.0.(points := h.points) == h
    ensures h.offset == Pair(0.0, 0.0) ==> r.0.points[|h.points|] == point
    ensures |h.points| == 0 ==>
              r.1 == PaintStyle(h.ctxColor, h.width) + [Vertex(point, true)]
    ensures |h.points| > 0 ==> r.1 == [Vertex(point, false), Stroke]
  {
    var scale := BoardScale(boardSize, canvasWidth);
    var offsetX := h.offset.first / scale;
    var offsetY := h.offset.second / scale;
    var h' := h.(points := h.points + [Pair(point.first + offsetX, point.second + offsetY)]);
    if |h'.points| == 1 then
      (h', PaintStyle(h.ctxColor, h.width) + [Vertex(point, true)])
    else
      (h', [Vertex(point, false), Stroke])
  }

  /**
   * The stored point is the touched point moved by the stroke's offset,
   * measured in board pixels: the displacement times the board width equals
   * the offset times the canvas width.
   */
  lemma AddPointShift(h: Handwriting, point: Pair, boardSize: Pair, canvasWidth: real)
    requires canvasWidth != 0.0 && boardSize.first != 0.0
    ensures var q := AddPoint(h, point, boardSize, canvasWidth).0.points[|h.points|];
            && (q.first - point.first) * boardSize.first == h.offset.first * canvasWidth
            && (q.second - point.second) * boardSize.first == h.offset.second * canvasWidth
  {
  }

  /** Where `reDraw` puts a stored coordinate: rounded after zooming, then shifted. */
  function Place(v: real, scale: real, shift: real): real
  {
    RoundR(v * scale) + shift
  }

  /**
   * The vertices of the `reDraw` loop: `moveTo` for the first point of the
   * stroke (`started` is the loop's `isStart` flag), `lineTo` for every other.
   */
  function Walk(points: seq<Pair>, started: bool, scale: real, shift: Pair): (r: seq<Command>)
    ensures |r| == |points|
    ensures forall i :: 0 <= i < |points| ==>
              r[i] == (if i == 0 && !started
                       then MoveTo(Place(points[i].first, scale, shift.first), Place(points[i].second, scale, shift.second))
                       else LineTo(Place(points[i].first, scale, shift.first), Place(points[i].second, scale, shift.second)))
    decreases |points|
  {
    if points == [] then []
    else
      var x := Place(points[0].first, scale, shift.first);
      var y := Place(points[0].second, scale, shift.second);
      (if started then [LineTo(x, y)] else [MoveTo(x, y)]) + Walk(points[1..], true, scale, shift)
  }

  /**
   * The pixel shift `reDraw` adds to every coordinate: half the board's excess
   * over the canvas, in logical pixels at the current zoom, plus the stroke's offset.
   */
  function ReDrawShift(h: Handwriting, canvas: Pair, boardSize: Pair, dpr: real): (r: Pair)
    requires canvas.first != 0.0 && boardSize.first != 0.0 && dpr != 0.0
    ensures boardSize == canvas ==> r == h.offset
    ensures canvas.first > 0.0 && dpr > 0.0 && Covers(boardSize, canvas) ==> Covers(r, h.offset)
  {
    var scale := BoardScale(boardSize, canvas.first);
    QuotientNonNegative((boardSize.first - canvas.first) / 2.0 / dpr, scale);
    QuotientNonNegative((boardSize.second - canvas.second) / 2.0 / dpr, scale);
    Pair((boardSize.first - canvas.first) / 2.0 / dpr / scale + h.offset.first,
         (boardSize.second - canvas.second) / 2.0 / dpr / scale + h.offset.second)
  }

  /**
   * Replays the whole stroke: nothing for an empty stroke; otherwise one path
   * in the stroke's colour with its width multiplied by the zoom, a `moveTo`
   * to the first point, a `lineTo` to each later point in order, and a single
   * stroke at the end. `ReDraw` returns only a trace: the stroke is not changed.
   */
  function ReDraw(h: Handwriting, canvas: Pair, boardSize: Pair, dpr: real): (r: seq<Command>)
    requires canvas.first != 0.0 && boardSize.first != 0.0 && dpr != 0.0
    ensures |h.points| == 0 <==> r == []
    ensures |h.points| > 0 ==>
              var scale := BoardScale(boardSize, canvas.first);
              var shift := ReDrawShift(h, canvas, boardSize, dpr);
              && |r| == |h.points| + 5
              && r[0] == BeginPath && r[1] == StrokeStyle(h.ctxColor)
              && r[2] == LineWidth(ScaledWidth(scale, h.width)) && r[3] == LineJoin("round")
              && r[4] == MoveTo(Place(h.points[0].first, scale, shift.first), Place(h.points[0].second, scale, shift.second))
              && (forall i :: 1 <= i < |h.points| ==>
                    r[4 + i] == LineTo(Place(h.points[i].first, scale, shift.first), Place(h.points[i].second, scale, shift.second)))
              && r[|r| - 1] == Stroke
  {
    if |h.points| == 0 then []
    else
      var scale := BoardScale(boardSize, canvas.first);
      var style := PaintStyle(h.ctxColor, ScaledWidth(scale, h.width));
      style + Walk(h.points, false, scale, ReDrawShift(h, canvas, boardSize, dpr)) + [Stroke]
  }

  /** Feeds `pts` to `AddPoint` one after another; the stroke and the concatenated trace. */
  function AddAll(h: Handwriting, pts: seq<Pair>, boardSize: Pair, canvasWidth: real): (r: (Handwriting, seq<Command>))
    requires canvasWidth != 0.0 && boardSize.first != 0.0
    ensures |r.0.points| == |h.points| + |pts|
    ensures r.0.(points := h.points) == h
    ensures h.offset == Pair(0.0, 0.0) ==> r.0.points == h.points + pts
    decreases |pts|
  {
    if pts == [] then (h, [])
    else
      var prefix := AddAll(h, pts[..|pts| - 1], boardSize, canvasWidth);
      var step := AddPoint(prefix.0, pts[|pts| - 1], boardSize, canvasWidth);
      (step.0, prefix.1 + step.1)
  }

  /** One `AddPoint` call draws exactly one vertex, and strokes it unless it opens the path. */
  lemma AddPointVertex(h: Handwriting, point: Pair, boardSize: Pair, canvasWidth: real)
    requires canvasWidth != 0.0 && boardSize.first != 0.0
    ensures PathOf(AddPoint(h, point, boardSize, canvasWidth).1)
         == [Vertex(point, h.points == [])]
    ensures StrokeCount(AddPoint(h, point, boardSize, canvasWidth).1) == if h.points == [] then 0 else 1
  {
    var m := [Vertex(point, true)];
    if h.points == [] {
      PathOfAppend(PaintStyle(h.ctxColor, h.width), m);
      StrokeCountAppend(PaintStyle(h.ctxColor, h.width), m);
      PaintStyleIsSilent(h.ctxColor, h.width);
    } else {
      var t := [Vertex(point, false), Stroke];
      assert t[1..] == [Stroke] && t[1..][1..] == [];
      assert StrokeCount(t[1..]) == 1;
    }
  }

  /**
   * Drawing one more point of a fresh stroke adds its vertex, and a stroke
   * unless it is the first point. The live trace is drawn at the raw touched
   * point, so neither the offset nor the zoom matters.
   */
  lemma IncrementalStep(h: Handwriting, q: seq<Pair>, p: Pair, boardSize: Pair, canvasWidth: real)
    requires h.points == [] && canvasWidth != 0.0 && boardSize.first != 0.0
    ensures PathOf(AddAll(h, q + [p], boardSize, canvasWidth).1)
         == PathOf(AddAll(h, q, boardSize, canvasWidth).1)
            + [Vertex(p, q == [])]
    ensures StrokeCount(AddAll(h, q + [p], boardSize, canvasWidth).1)
         == StrokeCount(AddAll(h, q, boardSize, canvasWidth).1) + (if q == [] then 0 else 1)
  {
    var pts := q + [p];
    assert pts[..|pts| - 1] == q;
    var prefix := AddAll(h, q, boardSize, canvasWidth);
    var step := AddPoint(prefix.0, p, boardSize, canvasWidth);
    assert AddAll(h, pts, boardSize, canvasWidth).1 == prefix.1 + step.1;
    assert |prefix.0.points| == |q|;
    AddPointVertex(prefix.0, p, boardSize, canvasWidth);
    PathOfAppend(prefix.1, step.1);
    StrokeCountAppend(prefix.1, step.1);
  }

  /**
   * The incremental drawing of a fresh stroke traces the rounded polyline of
   * the touched points, whatever the stroke's offset and the board's zoom.
   */
  lemma {:induction false} IncrementalPath(h: Handwriting, pts: seq<Pair>, boardSize: Pair, canvasWidth: real)
    requires h.points == [] && canvasWidth != 0.0 && boardSize.first != 0.0
    ensures PathOf(AddAll(h, pts, boardSize, canvasWidth).1) == RoundedPath(pts)
    ensures StrokeCount(AddAll(h, pts, boardSize, canvasWidth).1) == if pts == [] then 0 else |pts| - 1
    decreases |pts|
  {
    if pts != [] {
      var q := pts[..|pts| - 1];
      var p := pts[|pts| - 1];
      assert q + [p] == pts;
      IncrementalPath(h, q, boardSize, canvasWidth);
      IncrementalStep(h, q, p, boardSize, canvasWidth);
      RoundedPathSnoc(q, p);
    }
  }

  /** Unzoomed and unshifted, the replay loop draws the reference polyline. */
  lemma WalkAtRest(points: seq<Pair>)
    ensures Walk(points, false, 1.0, Pair(0.0, 0.0)) == RoundedPath(points)
  {
    var w := Walk(points, false, 1.0, Pair(0.0, 0.0));
    forall i | 0 <= i < |points|
      ensures w[i] == RoundedPath(points)[i]
    {
      assert points[i].first * 1.0 == points[i].first;
      assert points[i].second * 1.0 == points[i].second;
    }
  }

  /** Replaying a stroke with the board at canvas size and no offset draws its rounded polyline. */
  lemma ReDrawAtRest(h: Handwriting, canvas: Pair, dpr: real)
    requires h.offset == Pair(0.0, 0.0) && canvas.first != 0.0 && dpr != 0.0
    ensures PathOf(ReDraw(h, canvas, canvas, dpr)) == RoundedPath(h.points)
    ensures StrokeCount(ReDraw(h, canvas, canvas, dpr)) == if h.points == [] then 0 else 1
  {
    if h.points != [] {
      WalkAtRest(h.points);
      var w := RoundedPath(h.points);
      var style := PaintStyle(h.ctxColor, ScaledWidth(1.0, h.width));
      assert ReDraw(h, canvas, canvas, dpr) == style + w + [Stroke];
      PathOfAppend(style + w, [Stroke]);
      PathOfAppend(style, w);
      StrokeCountAppend(style + w, [Stroke]);
      StrokeCountAppend(style, w);
      PaintStyleIsSilent(h.ctxColor, ScaledWidth(1.0, h.width));
      PathOfVertices(w);
      NoStroke(w);
      assert PathOf([Stroke]) == [];
    }
  }

  /**
   * Drawing a fresh stroke point by point and replaying it in full (board at
   * canvas size, no offset) give the same geometry: the same `moveTo` and the
   * same `lineTo` calls in the same order, at the same rounded coordinates.
   * The incremental drawing strokes once per segment, the replay once in all.
   */
  lemma IncrementalMatchesReDraw(h: Handwriting, pts: seq<Pair>, canvas: Pair, dpr: real)
    requires h.points == [] && h.offset == Pair(0.0, 0.0)
    requires canvas.first != 0.0 && dpr != 0.0
    ensures AddAll(h, pts, canvas, canvas.first).0.points == pts
    ensures PathOf(AddAll(h, pts, canvas, canvas.first).1)
         == PathOf(ReDraw(AddAll(h, pts, canvas, canvas.first).0, canvas, canvas, dpr))
  {
    IncrementalPath(h, pts, canvas, canvas.first);
    ReDrawAtRest(AddAll(h, pts, canvas, canvas.first).0, canvas, dpr);
  }
}
