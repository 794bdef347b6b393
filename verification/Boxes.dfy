/** Boxes and their intersection over union, as the suppression loops compute it. */
module Boxes {
  import Statistics
  import opened TensorOps

  datatype Box = Box(x0: real, y0: real, x1: real, y1: real)

  function Max(a: real, b: real): (m: real)
    ensures a <= m && b <= m && (m == a || m == b)
  {
    if a < b then b else a
  }

  function Min(a: real, b: real): (m: real)
    ensures m <= a && m <= b && (m == a || m == b)
  {
    if a < b then a else b
  }

  function Width(b: Box): real { b.x1 - b.x0 + 1.0 }
  function Height(b: Box): real { b.y1 - b.y0 + 1.0 }
  function Area(b: Box): real { Width(b) * Height(b) }

  function OverlapWidth(a: Box, b: Box): real {
    Max(0.0, Min(a.x1, b.x1) - Max(a.x0, b.x0) + 1.0)
  }

  function OverlapHeight(a: Box, b: Box): real {
    Max(0.0, Min(a.y1, b.y1) - Max(a.y0, b.y0) + 1.0)
  }

  function Overlap(a: Box, b: Box): real {
    OverlapWidth(a, b) * OverlapHeight(a, b)
  }

  function Union(a: Box, b: Box): real {
    Area(a) + Area(b) - Overlap(a, b)
  }

  /** `overlap / union < threshold`. A zero union gives infinity or NaN in floating point, and
      neither is below any threshold; boxes of non-negative size never get there. */
  predicate IouBelow(a: Box, b: Box, threshold: real) {
    Union(a, b) != 0.0 && Overlap(a, b) / Union(a, b) < threshold
  }

  lemma IouBelowSymmetric(a: Box, b: Box, threshold: real)
    ensures IouBelow(a, b, threshold) == IouBelow(b, a, threshold)
  {
    OverlapSymmetric(a, b);
  }

  /** How far two intervals overlap: from the later start to the earlier end and one more, if positive. */
  ghost predicate IsExtent(w: real, p0: real, p1: real, q0: real, q1: real) {
    && w >= 0.0 && w >= (if p1 <= q1 then p1 else q1) - (if p0 >= q0 then p0 else q0) + 1.0
    && (w == 0.0 || w == (if p1 <= q1 then p1 else q1) - (if p0 >= q0 then p0 else q0) + 1.0)
  }

  lemma ExtentIs(w: real, p0: real, p1: real, q0: real, q1: real)
    requires IsExtent(w, p0, p1, q0, q1)
    ensures w == Max(0.0, Min(p1, q1) - Max(p0, q0) + 1.0)
  {
  }

  /** Overlap and union of any two boxes in their coordinates: `w` and `h` are the sides of the
      overlap; a box is a pixel more across than the distance between its edges. */
  lemma UnionIs(a: Box, b: Box, w: real, h: real)
    requires IsExtent(w, a.x0, a.x1, b.x0, b.x1) && IsExtent(h, a.y0, a.y1, b.y0, b.y1)
    ensures Overlap(a, b) == w * h
    ensures Union(a, b) ==
            (a.x1 - a.x0 + 1.0) * (a.y1 - a.y0 + 1.0) + (b.x1 - b.x0 + 1.0) * (b.y1 - b.y0 + 1.0) - w * h
  {
    ExtentIs(w, a.x0, a.x1, b.x0, b.x1);
    ExtentIs(h, a.y0, a.y1, b.y0, b.y1);
  }

  /** The threshold test without its division, for any two boxes. */
  lemma IouBelowIs(a: Box, b: Box, t: real)
    ensures var o, u := Overlap(a, b), Union(a, b);
            IouBelow(a, b, t) <==> (u > 0.0 && o < t * u) || (u < 0.0 && o > t * u)
  {
    if Union(a, b) != 0.0 { QuotientBelow(Overlap(a, b), Union(a, b), t); }
  }

  lemma QuotientBelow(o: real, u: real, t: real)
    requires u != 0.0
    ensures o / u < t <==> (u > 0.0 && o < t * u) || (u < 0.0 && o > t * u)
  {
    var q := o / u;
    assert q * u == o;
    if u > 0.0 {
      if q < t { assert (t - q) * u > 0.0; } else { assert (q - t) * u >= 0.0; }
    } else {
      if q < t { assert (t - q) * -u > 0.0; } else { assert (q - t) * -u >= 0.0; }
    }
  }

  /** A box of non-negative width and height. */
  predicate Proper(b: Box) {
    b.x0 <= b.x1 && b.y0 <= b.y1
  }

  lemma ProductMonotone(a: real, b: real, c: real, d: real)
    requires 0.0 <= a <= c && 0.0 <= b <= d
    ensures 0.0 <= a * b <= c * d
    ensures a * b == c * d && c > 0.0 && d > 0.0 ==> a == c && b == d
  {
    assert a * b <= c * b <= c * d;
    if c > 0.0 && d > 0.0 {
      if a < c {
        assert (c - a) * d > 0.0;
        assert a * b <= a * d < c * d;
      } else if b < d {
        assert c * (d - b) > 0.0;
      }
    }
  }

  /** The overlap is within either box, and fills it only by spanning both its sides. */
  lemma OverlapWithin(a: Box, b: Box)
    requires Proper(a) && Proper(b)
    ensures 0.0 <= Overlap(a, b) <= Area(a) && Area(a) >= 1.0
    ensures Overlap(a, b) == Area(a) ==> OverlapWidth(a, b) == Width(a) && OverlapHeight(a, b) == Height(a)
  {
    ProductMonotone(OverlapWidth(a, b), OverlapHeight(a, b), Width(a), Height(a));
    ProductMonotone(1.0, 1.0, Width(a), Height(a));
  }

  lemma OverlapSymmetric(a: Box, b: Box)
    ensures OverlapWidth(a, b) == OverlapWidth(b, a) && OverlapHeight(a, b) == OverlapHeight(b, a)
    ensures Overlap(a, b) == Overlap(b, a) && Union(a, b) == Union(b, a)
  {
  }

  lemma OverlapBounds(a: Box, b: Box)
    requires Proper(a) && Proper(b)
    ensures 0.0 <= Overlap(a, b) <= Area(a)
    ensures Overlap(a, b) <= Area(b)
    ensures Area(a) >= 1.0 && Area(b) >= 1.0
    ensures Union(a, b) >= 1.0 && Union(a, b) >= Overlap(a, b)
  {
    OverlapWithin(a, b);
    OverlapWithin(b, a);
    OverlapSymmetric(a, b);
  }

  function Iou(a: Box, b: Box): real
    requires Proper(a) && Proper(b)
  {
    OverlapBounds(a, b);
    Overlap(a, b) / Union(a, b)
  }

  /** On proper boxes the ratio is a similarity: in [0, 1], symmetric, and 1 exactly on equal boxes. */
  lemma IouIsSimilarity(a: Box, b: Box)
    requires Proper(a) && Proper(b)
    ensures 0.0 <= Iou(a, b) <= 1.0
    ensures Iou(a, b) == Iou(b, a)
    ensures Iou(a, b) == 1.0 <==> a == b
    ensures forall t :: IouBelow(a, b, t) <==> Iou(a, b) < t
  {
    OverlapBounds(a, b);
    OverlapSymmetric(a, b);
    Statistics.RatioBounds(Overlap(a, b), Union(a, b));
    if Overlap(a, b) == Union(a, b) {
      FullOverlap(a, b);
    } else if a == b {
      OverlapOfSelf(a, b);
    }
  }

  lemma FullOverlap(a: Box, b: Box)
    requires Proper(a) && Proper(b) && Overlap(a, b) == Union(a, b)
    ensures a == b
  {
    OverlapBounds(a, b);
    OverlapWithin(a, b);
    OverlapWithin(b, a);
    OverlapSymmetric(a, b);
  }

  lemma OverlapOfSelf(a: Box, b: Box)
    requires Proper(a) && a == b
    ensures Overlap(a, b) == Union(a, b)
  {
    assert OverlapWidth(a, b) == Width(a) && OverlapHeight(a, b) == Height(a);
  }

  // ----- points for the visualizer

  datatype Point = Point(x: real, y: real) {
    function Scaled(dim: real): Point
      requires dim != 0.0
    {
      Point(x / dim, y / dim)
    }
  }

  /** What a tensor holds when there is nothing to show. */
  const ZEROS: seq<Point> := [Point(0.0, 0.0), Point(0.0, 0.0)]

  /** Box rows of four, reshaped into rows of two. */
  function CornerPoints(boxes: seq<Box>): seq<Point> {
    var flat := Flatten(seq(|boxes|, k requires 0 <= k < |boxes| =>
                            [boxes[k].x0, boxes[k].y0, boxes[k].x1, boxes[k].y1]));
    seq(|flat| / 2, i requires 0 <= i < |flat| / 2 => Point(flat[2 * i], flat[2 * i + 1]))
  }

  lemma CornerPointsAt(boxes: seq<Box>)
    ensures |CornerPoints(boxes)| == 2 * |boxes|
    ensures forall k :: 0 <= k < |boxes| ==>
              && CornerPoints(boxes)[2 * k] == Point(boxes[k].x0, boxes[k].y0)
              && CornerPoints(boxes)[2 * k + 1] == Point(boxes[k].x1, boxes[k].y1)
  {
    var rows := seq(|boxes|, k requires 0 <= k < |boxes| =>
                    [boxes[k].x0, boxes[k].y0, boxes[k].x1, boxes[k].y1]);
    FlattenLength(rows, 4);
    forall k | 0 <= k < |boxes|
      ensures CornerPoints(boxes)[2 * k] == Point(boxes[k].x0, boxes[k].y0)
      ensures CornerPoints(boxes)[2 * k + 1] == Point(boxes[k].x1, boxes[k].y1)
    {
      FlattenAt(rows, 4, k, 0);
      FlattenAt(rows, 4, k, 1);
      FlattenAt(rows, 4, k, 2);
      FlattenAt(rows, 4, k, 3);
    }
  }
}
