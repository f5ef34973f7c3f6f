/**
 * YOLO detections (core/types.py `DetectionDict`): a class name, a
 * confidence and a box in screen pixels.
 */
module Detections {
  import opened Sorting

  datatype Det = Det(idx: int, name: string, conf: real, x1: real, y1: real, x2: real, y2: real)

  function CenterX(d: Det): real
  {
    (d.x1 + d.x2) / 2.0
  }

  function CenterY(d: Det): real
  {
    (d.y1 + d.y2) / 2.0
  }

  /** The detections of one class, in their original order. */
  function Named(dets: seq<Det>, name: string): (r: seq<Det>)
    ensures forall k :: 0 <= k < |r| ==> r[k].name == name
  {
    Filter(dets, (d: Det) => d.name == name)
  }
}
