/** What the box arithmetic means on whole pixels: areas and overlaps count the pixels that boxes
    cover, both edges included. */
module Pixels {
  import opened Boxes

  type Pixel = (int, int)

  /** The box with these whole corner coordinates. */
  function BoxAt(x0: int, y0: int, x1: int, y1: int): Box {
    Box(x0 as real, y0 as real, x1 as real, y1 as real)
  }

  ghost function RowOfPixels(x0: int, x1: int, y: int): (r: set<Pixel>)
    ensures forall p: Pixel :: p in r <==> x0 <= p.0 <= x1 && p.1 == y
    ensures |r| == if x0 <= x1 then x1 - x0 + 1 else 0
    decreases x1 - x0 + 1
  {
    if x1 < x0 then {} else RowOfPixels(x0, x1 - 1, y) + {(x1, y)}
  }

  function Extent(lo: int, hi: int): nat { if lo <= hi then hi - lo + 1 else 0 }

  /** `h` rows of `w` pixels. */
  function Rows(w: nat, h: nat): nat { if h == 0 then 0 else Rows(w, h - 1) + w }

  lemma {:induction false} RowsAsReal(w: nat, h: nat)
    ensures Rows(w, h) as real == w as real * h as real
  {
    if h == 0 {
    } else {
      RowsAsReal(w, h - 1);
      assert w as real * ((h - 1) as real + 1.0) == w as real * (h - 1) as real + w as real;
    }
  }

  /** The pixels between two corners, both included. */
  ghost function Cover(x0: int, y0: int, x1: int, y1: int): (r: set<Pixel>)
    ensures IsCover(r, x0, y0, x1, y1)
    ensures |r| == Rows(Extent(x0, x1), Extent(y0, y1))
    decreases y1 - y0 + 1
  {
    if y1 < y0 then {}
    else
      var above, row := Cover(x0, y0, x1, y1 - 1), RowOfPixels(x0, x1, y1);
      assert above !! row;
      above + row
  }

  function Max(a: int, b: int): int { if a < b then b else a }
  function Min(a: int, b: int): int { if a < b then a else b }

  ghost predicate IsCover(s: set<Pixel>, x0: int, y0: int, x1: int, y1: int) {
    forall p: Pixel :: p in s <==> x0 <= p.0 <= x1 && y0 <= p.1 <= y1
  }

  lemma SharedCover(s: set<Pixel>, t: set<Pixel>, u: set<Pixel>,
                    a0: int, b0: int, a1: int, b1: int, c0: int, d0: int, c1: int, d1: int)
    requires IsCover(s, a0, b0, a1, b1) && IsCover(t, c0, d0, c1, d1)
    requires IsCover(u, Max(a0, c0), Max(b0, d0), Min(a1, c1), Min(b1, d1))
    ensures s * t == u
  {
  }

  lemma SharedPixels(a0: int, b0: int, a1: int, b1: int, c0: int, d0: int, c1: int, d1: int)
    ensures Cover(a0, b0, a1, b1) * Cover(c0, d0, c1, d1) ==
            Cover(Max(a0, c0), Max(b0, d0), Min(a1, c1), Min(b1, d1))
  {
    SharedCover(Cover(a0, b0, a1, b1), Cover(c0, d0, c1, d1),
                Cover(Max(a0, c0), Max(b0, d0), Min(a1, c1), Min(b1, d1)),
                a0, b0, a1, b1, c0, d0, c1, d1);
  }

  lemma AreaCounts(x0: int, y0: int, x1: int, y1: int)
    requires x0 <= x1 && y0 <= y1
    ensures Area(BoxAt(x0, y0, x1, y1)) == |Cover(x0, y0, x1, y1)| as real
  {
    AreaOfSides(BoxAt(x0, y0, x1, y1), Extent(x0, x1), Extent(y0, y1));
  }

  lemma AreaOfSides(b: Box, w: nat, h: nat)
    requires Width(b) == w as real && Height(b) == h as real
    ensures Area(b) == Rows(w, h) as real
  {
    RowsAsReal(w, h);
  }

  lemma OverlapOfSides(a: Box, b: Box, w: nat, h: nat)
    requires OverlapWidth(a, b) == w as real && OverlapHeight(a, b) == h as real
    ensures Overlap(a, b) == Rows(w, h) as real
  {
    RowsAsReal(w, h);
  }

  lemma OverlapCounts(a0: int, b0: int, a1: int, b1: int, c0: int, d0: int, c1: int, d1: int)
    ensures Overlap(BoxAt(a0, b0, a1, b1), BoxAt(c0, d0, c1, d1)) ==
            |Cover(a0, b0, a1, b1) * Cover(c0, d0, c1, d1)| as real
  {
    var a, b := BoxAt(a0, b0, a1, b1), BoxAt(c0, d0, c1, d1);
    var w, h := Extent(Max(a0, c0), Min(a1, c1)), Extent(Max(b0, d0), Min(b1, d1));
    SharedPixels(a0, b0, a1, b1, c0, d0, c1, d1);
    OverlapSides(a0, a1, c0, c1, a.x0, a.x1, b.x0, b.x1);
    OverlapSides(b0, b1, d0, d1, a.y0, a.y1, b.y0, b.y1);
    OverlapOfSides(a, b, w, h);
  }

  lemma OverlapSides(a0: int, a1: int, c0: int, c1: int, ra0: real, ra1: real, rc0: real, rc1: real)
    requires ra0 == a0 as real && ra1 == a1 as real && rc0 == c0 as real && rc1 == c1 as real
    ensures Boxes.Max(0.0, Boxes.Min(ra1, rc1) - Boxes.Max(ra0, rc0) + 1.0) == Extent(Max(a0, c0), Min(a1, c1)) as real
  {
  }

  /** For boxes with whole corners, area, overlap and union are the sizes of the pixel sets, so the
      IoU is the size of the intersection over that of the union. */
  lemma IouCountsPixels(a0: int, b0: int, a1: int, b1: int, c0: int, d0: int, c1: int, d1: int)
    requires a0 <= a1 && b0 <= b1 && c0 <= c1 && d0 <= d1
    ensures var a, b := BoxAt(a0, b0, a1, b1), BoxAt(c0, d0, c1, d1);
            var p, q := Cover(a0, b0, a1, b1), Cover(c0, d0, c1, d1);
            && Overlap(a, b) == |p * q| as real
            && Union(a, b) == |p + q| as real
            && |p + q| > 0
            && Iou(a, b) == |p * q| as real / |p + q| as real
  {
    var a, b := BoxAt(a0, b0, a1, b1), BoxAt(c0, d0, c1, d1);
    var p, q := Cover(a0, b0, a1, b1), Cover(c0, d0, c1, d1);
    OverlapCounts(a0, b0, a1, b1, c0, d0, c1, d1);
    AreaCounts(a0, b0, a1, b1);
    AreaCounts(c0, d0, c1, d1);
    assert |p + q| + |p * q| == |p| + |q|;
    OverlapBounds(a, b);
  }
}
