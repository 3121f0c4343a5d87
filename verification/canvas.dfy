/**
 * The 2D drawing context, seen only through the calls the actions make on it.
 * A canvas effect is modelled as the list of commands it issues, so that the
 * drawing behaviour of an action can be stated over that trace.
 */
module Canvas {
  import opened Geometry

  datatype Command =
    | BeginPath                         // ctx.beginPath()
    | StrokeStyle(color: string)        // ctx.strokeStyle = color
    | LineWidth(width: real)            // ctx.lineWidth = width
    | LineJoin(join: string)            // ctx.lineJoin = join
    | MoveTo(x: real, y: real)          // ctx.moveTo(x, y)
    | LineTo(x: real, y: real)          // ctx.lineTo(x, y)
    | Stroke                            // ctx.stroke()
    | ScaleTransform(sx: real, sy: real) // ctx.scale(sx, sy)

  /** The paint set-up every stroke starts with: a new path in the given colour and width, round joins. */
  function PaintStyle(color: string, width: real): seq<Command>
  {
    [BeginPath, StrokeStyle(color), LineWidth(width), LineJoin("round")]
  }

  /** The line width of a stroke of width `width` replayed at zoom `scale`. */
  function ScaledWidth(scale: real, width: real): real
  {
    scale * width
  }

  predicate IsVertex(c: Command)
  {
    c.MoveTo? || c.LineTo?
  }

  /** The geometry of a trace: its `moveTo`/`lineTo` commands, in order. */
  function PathOf(trace: seq<Command>): (r: seq<Command>)
    ensures |r| <= |trace|
    ensures forall i :: 0 <= i < |r| ==> IsVertex(r[i])
  {
    if trace == [] then []
    else (if IsVertex(trace[0]) then [trace[0]] else []) + PathOf(trace[1..])
  }

  /** How many times a trace strokes the current path. */
  function StrokeCount(trace: seq<Command>): nat
  {
    if trace == [] then 0
    else (if trace[0].Stroke? then 1 else 0) + StrokeCount(trace[1..])
  }

  /** One rounded vertex: `moveTo` when it opens the path, otherwise `lineTo`. */
  function Vertex(p: Pair, opens: bool): Command
  {
    if opens then MoveTo(RoundR(p.first), RoundR(p.second)) else LineTo(RoundR(p.first), RoundR(p.second))
  }

  /**
   * The reference geometry of a polyline drawn at scale 1 with no shift: a
   * `moveTo` to the first rounded point and a `lineTo` to every later one.
   */
  function RoundedPath(points: seq<Pair>): (r: seq<Command>)
  {
    seq(|points|, i requires 0 <= i < |points| => Vertex(points[i], i == 0))
  }

  /** Extending a polyline by one point adds one vertex at its end. */
  lemma RoundedPathSnoc(points: seq<Pair>, p: Pair)
    ensures RoundedPath(points + [p])
         == RoundedPath(points) + [Vertex(p, points == [])]
  {
  }

  lemma {:induction false} PathOfAppend(a: seq<Command>, b: seq<Command>)
    ensures PathOf(a + b) == PathOf(a) + PathOf(b)
    decreases |a|
  {
    if a != [] {
      assert (a + b)[1..] == a[1..] + b;
      PathOfAppend(a[1..], b);
    } else {
      assert a + b == b;
    }
  }

  lemma {:induction false} StrokeCountAppend(a: seq<Command>, b: seq<Command>)
    ensures StrokeCount(a + b) == StrokeCount(a) + StrokeCount(b)
    decreases |a|
  {
    if a != [] {
      assert (a + b)[1..] == a[1..] + b;
      StrokeCountAppend(a[1..], b);
    } else {
      assert a + b == b;
    }
  }

  /** A trace made only of path vertices is its own geometry. */
  lemma {:induction false} PathOfVertices(trace: seq<Command>)
    requires forall i :: 0 <= i < |trace| ==> IsVertex(trace[i])
    ensures PathOf(trace) == trace
    decreases |trace|
  {
    if trace != [] {
      PathOfVertices(trace[1..]);
    }
  }

  /** The paint set-up draws no geometry and strokes nothing. */
  lemma PaintStyleIsSilent(color: string, width: real)
    ensures PathOf(PaintStyle(color, width)) == []
    ensures StrokeCount(PaintStyle(color, width)) == 0
  {
    NoVertex(PaintStyle(color, width));
    NoStroke(PaintStyle(color, width));
  }

  /** A trace without a `moveTo` or `lineTo` draws no geometry. */
  lemma {:induction false} NoVertex(trace: seq<Command>)
    requires forall i :: 0 <= i < |trace| ==> !IsVertex(trace[i])
    ensures PathOf(trace) == []
    decreases |trace|
  {
    if trace != [] {
      NoVertex(trace[1..]);
    }
  }

  /** A trace without a stroke command strokes nothing. */
  lemma {:induction false} NoStroke(trace: seq<Command>)
    requires forall i :: 0 <= i < |trace| ==> !trace[i].Stroke?
    ensures StrokeCount(trace) == 0
    decreases |trace|
  {
    if trace != [] {
      NoStroke(trace[1..]);
    }
  }
}
