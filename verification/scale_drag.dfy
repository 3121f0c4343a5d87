/** The record of one pan/zoom gesture of the board. */
module ScaleDragAction {
  import opened Geometry

  /**
   * `scaleDistance`: the distance between the first two fingers when the
   * gesture started; `dragCenter`: the centre of the fingers at the last
   * accepted frame; `prevBoardSize`: the board size when the gesture started.
   */
  datatype ScaleDrag = ScaleDrag(actionVersion: int, scaleDistance: real, dragCenter: Pair, prevBoardSize: Pair)
}
