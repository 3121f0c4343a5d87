/**
 * A zoom step of the earlier engine: the global scale before the gesture,
 * and a two-place shift register of the last two recorded scales.
 */
module ScaleAction {
  import opened Canvas

  /** `currentScale`: 0.5 is 50%, 1 is 100%, 2 is 200%; `prevScale`: the one recorded before it. */
  datatype Scale = Scale(id: int, originScale: real, currentScale: real, prevScale: real)

  function New(id: int, originScale: real): (s: Scale)
    ensures s.currentScale == 1.0 && s.prevScale == 1.0
    ensures s.id == id && s.originScale == originScale
  {
    Scale(id, originScale, 1.0, 1.0)
  }

  /** Shifts the register: the current scale becomes the previous one and `scale` the current one. */
  function Record(s: Scale, scale: real): (r: Scale)
    ensures r.prevScale == s.currentScale && r.currentScale == scale
    ensures r.id == s.id && r.originScale == s.originScale
  {
    s.(prevScale := s.currentScale, currentScale := scale)
  }

  /**
   * The factor `draw` applies to the context: the step from the previous to
   * the current recorded scale, divided by the scale the gesture started from.
   */
  function DrawFactor(s: Scale): (f: real)
    requires s.originScale != 0.0 && s.prevScale != 0.0
    ensures f * s.originScale * s.prevScale == s.currentScale
  {
    s.currentScale / s.originScale / s.prevScale
  }

  /** `draw`: scales the context by the same factor in both directions. */
  function Draw(s: Scale): (r: seq<Command>)
    requires s.originScale != 0.0 && s.prevScale != 0.0
    ensures |r| == 1 && r[0].ScaleTransform? && r[0].sx == r[0].sy
    ensures r[0].sx * s.originScale * s.prevScale == s.currentScale
  {
    var f := DrawFactor(s);
    [ScaleTransform(f, f)]
  }

  /** Two records leave exactly the two recorded scales in the register, in order. */
  lemma RecordTwice(s: Scale, a: real, b: real)
    ensures Record(Record(s, a), b).prevScale == a
    ensures Record(Record(s, a), b).currentScale == b
    ensures Record(Record(s, a), b).(prevScale := s.prevScale, currentScale := s.currentScale) == s
  {
  }

  /** Right after construction the register holds 1 and 1, so `draw` scales by `1 / originScale`. */
  lemma FreshDrawFactor(id: int, originScale: real)
    requires originScale != 0.0
    ensures DrawFactor(New(id, originScale)) == 1.0 / originScale
  {
  }

  /** After recording `a` then `b`, `draw` scales by `b / a / originScale`. */
  lemma DrawAfterRecords(s: Scale, a: real, b: real)
    requires s.originScale != 0.0 && a != 0.0
    ensures DrawFactor(Record(Record(s, a), b)) * a * s.originScale == b
  {
    var r := Record(Record(s, a), b);
    assert DrawFactor(r) * r.originScale * r.prevScale == r.currentScale;
  }
}
