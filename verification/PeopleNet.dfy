/** The PeopleNet post-processor: class selection, box decoding over a grid, mask-and-reshape,
    suppression per label, and in-place normalization. */
module PeopleNet {
  import opened Division
  import opened TensorOps
  import opened Boxes
  import opened Ranking
  import opened Suppression
  import opened SuppressionLaws

  datatype Params = Params(
    iouThreshold: real, scoreThreshold: real, imageWidth: real, imageHeight: real,
    boxScale: real, boxOffset: real, gridHeight: nat, gridWidth: nat)
  {
    /** What the operator divides by is not zero. */
    ghost predicate Valid() {
      gridHeight > 0 && gridWidth > 0 && imageWidth != 0.0 && imageHeight != 0.0
    }
  }

  type Plane = seq<seq<real>>

  ghost predicate OnGrid(g: Plane, p: Params) {
    |g| == p.gridHeight && forall r :: 0 <= r < |g| ==> |g[r]| == p.gridWidth
  }

  ghost predicate Channels(t: seq<Plane>, n: nat, p: Params) {
    |t| == n && forall c :: 0 <= c < n ==> OnGrid(t[c], p)
  }

  /** The box channels and score channels of the person and face classes. */
  const BOX_CHANNELS: seq<nat> := [0, 1, 2, 3, 8, 9, 10, 11]
  const SCORE_CHANNELS: seq<nat> := [0, 2]

  // ----- what each cell stands for

  /** The near corner coordinate of a cell at `at`, `v` model units before it. */
  function Before(v: real, at: real, p: Params): real { -(v + p.boxOffset) * p.boxScale + at }

  /** The far corner coordinate, `v` model units after it. */
  function After(v: real, at: real, p: Params): real { (v + p.boxOffset) * p.boxScale + at }

  function CellX(c: nat, p: Params): real
    requires p.Valid()
  {
    c as real * (p.imageWidth / p.gridWidth as real)
  }

  function CellY(r: nat, p: Params): real
    requires p.Valid()
  {
    r as real * (p.imageHeight / p.gridHeight as real)
  }

  /** The box that class `cls` predicts in cell `(r, c)`. */
  function CellBox(boxes: seq<Plane>, p: Params, cls: nat, r: nat, c: nat): Box
    requires p.Valid() && Channels(boxes, 12, p) && cls < 3 && r < p.gridHeight && c < p.gridWidth
  {
    Box(Before(boxes[4 * cls][r][c], CellX(c, p), p), Before(boxes[4 * cls + 1][r][c], CellY(r, p), p),
        After(boxes[4 * cls + 2][r][c], CellX(c, p), p), After(boxes[4 * cls + 3][r][c], CellY(r, p), p))
  }

  /** All predictions of a class, in row-major cell order. */
  ghost function ClassBoxes(boxes: seq<Plane>, p: Params, cls: nat): (r: seq<Box>)
    requires p.Valid() && Channels(boxes, 12, p) && cls < 3
    ensures |r| == p.gridHeight * p.gridWidth
  {
    seq(p.gridHeight * p.gridWidth, q requires 0 <= q < p.gridHeight * p.gridWidth =>
      CellOf(q, p.gridHeight, p.gridWidth);
      CellBox(boxes, p, cls, q / p.gridWidth, q % p.gridWidth))
  }

  ghost function ClassScores(scores: seq<Plane>, p: Params, cls: nat): (r: seq<real>)
    requires p.Valid() && Channels(scores, 3, p) && cls < 3
    ensures |r| == p.gridHeight * p.gridWidth
  {
    seq(p.gridHeight * p.gridWidth, q requires 0 <= q < p.gridHeight * p.gridWidth =>
      CellOf(q, p.gridHeight, p.gridWidth);
      scores[cls][q / p.gridWidth][q % p.gridWidth])
  }

  // ----- reparameterize_boxes

  /** One corner coordinate of every cell of a plane. */
  function Shift(g: Plane, p: Params, low: bool, alongX: bool): (r: Plane)
    requires p.Valid() && OnGrid(g, p)
    ensures OnGrid(r, p)
  {
    seq(p.gridHeight, r requires 0 <= r < p.gridHeight =>
      seq(p.gridWidth, c requires 0 <= c < p.gridWidth =>
        var at := if alongX then CellX(c, p) else CellY(r, p);
        if low then Before(g[r][c], at, p) else After(g[r][c], at, p)))
  }

  lemma FlatLength(g: Plane, p: Params)
    requires OnGrid(g, p)
    ensures |Flatten(g)| == p.gridHeight * p.gridWidth
  {
    FlattenLength(g, p.gridWidth);
    assert p.gridWidth * p.gridHeight == p.gridHeight * p.gridWidth;
  }

  lemma FlattenFour<T>(a: seq<T>, b: seq<T>, c: seq<T>, d: seq<T>)
    ensures Flatten([a, b, c, d]) == a + b + c + d
  {
    FlattenSnoc([], a);
    FlattenSnoc([a], b);
    FlattenSnoc([a, b], c);
    FlattenSnoc([a, b, c], d);
    assert [] + [a] == [a] && [a] + [b] == [a, b] && [a, b] + [c] == [a, b, c] && [a, b, c] + [d] == [a, b, c, d];
  }

  /** `reshape(4, n)`. */
  function Reshape4(flat: seq<real>): (r: seq<seq<real>>)
    requires |flat| % 4 == 0
    ensures |r| == 4 && forall k :: 0 <= k < 4 ==> |r[k]| == |flat| / 4
  {
    var n := |flat| / 4;
    [flat[..n], flat[n..2 * n], flat[2 * n..3 * n], flat[3 * n..]]
  }

  /** The mask is repeated over four channels, applied to the flattened tensor, and reshaped. */
  function MaskBoxes(planes: seq<seq<real>>, mask: seq<bool>): (r: seq<real>)
    requires |planes| == 4 && forall k :: 0 <= k < 4 ==> |planes[k]| == |mask|
  {
    FlattenLength(planes, |mask|);
    FlattenLength([mask, mask, mask, mask], |mask|);
    Masked(Flatten(planes), Flatten([mask, mask, mask, mask]))
  }

  /** Each row holds its own channel at the masked positions, so the columns stay aligned. */
  lemma MaskedRowsAlign(planes: seq<seq<real>>, mask: seq<bool>)
    requires |planes| == 4 && forall k :: 0 <= k < 4 ==> |planes[k]| == |mask|
    ensures var flat := MaskBoxes(planes, mask);
            && |flat| == 4 * |Where(mask)|
            && forall k :: 0 <= k < 4 ==> Reshape4(flat)[k] == Gather(planes[k], Where(mask))
  {
    var a, b, c, d := planes[0], planes[1], planes[2], planes[3];
    assert planes == [a, b, c, d];
    MaskedRows(a, b, c, d, mask);
    forall k | 0 <= k < 4 ensures Masked(planes[k], mask) == Gather(planes[k], Where(mask)) {
      MaskedIsGather(planes[k], mask);
    }
  }

  lemma MaskedLength(xs: seq<real>, mask: seq<bool>)
    requires |xs| == |mask|
    ensures |Masked(xs, mask)| == |Where(mask)|
  {
    MaskedIsGather(xs, mask);
  }

  lemma MaskedRows(a: seq<real>, b: seq<real>, c: seq<real>, d: seq<real>, mask: seq<bool>)
    requires |a| == |b| == |c| == |d| == |mask|
    ensures var flat := MaskBoxes([a, b, c, d], mask);
            && |flat| == 4 * |Where(mask)|
            && Reshape4(flat) == [Masked(a, mask), Masked(b, mask), Masked(c, mask), Masked(d, mask)]
  {
    MaskedFour(a, b, c, d, mask);
    MaskedLength(a, mask);
    MaskedLength(b, mask);
    MaskedLength(c, mask);
    MaskedLength(d, mask);
    FourRows(Masked(a, mask), Masked(b, mask), Masked(c, mask), Masked(d, mask));
  }

  lemma MaskedFour(a: seq<real>, b: seq<real>, c: seq<real>, d: seq<real>, mask: seq<bool>)
    requires |a| == |b| == |c| == |d| == |mask|
    ensures MaskBoxes([a, b, c, d], mask) == Masked(a, mask) + Masked(b, mask) + Masked(c, mask) + Masked(d, mask)
  {
    FlattenFour(a, b, c, d);
    FlattenFour(mask, mask, mask, mask);
    MaskedConcat(a + b + c, mask + mask + mask, d, mask);
    MaskedConcat(a + b, mask + mask, c, mask);
    MaskedConcat(a, mask, b, mask);
  }

  lemma FourRows(a: seq<real>, b: seq<real>, c: seq<real>, d: seq<real>)
    requires |a| == |b| == |c| == |d|
    ensures |a + b + c + d| % 4 == 0 && Reshape4(a + b + c + d) == [a, b, c, d]
  {
    var flat := a + b + c + d;
    var n := |a|;
    assert flat[..n] == a && flat[n..2 * n] == b && flat[2 * n..3 * n] == c && flat[3 * n..] == d;
  }

  function FlatShift(g: Plane, p: Params, low: bool, alongX: bool): (r: seq<real>)
    requires p.Valid() && OnGrid(g, p)
    ensures |r| == p.gridHeight * p.gridWidth
  {
    var shifted := Shift(g, p, low, alongX);
    FlatLength(shifted, p);
    Flatten(shifted)
  }

  function DecodedPlanes(boxes: seq<Plane>, p: Params): (r: seq<seq<real>>)
    requires p.Valid() && Channels(boxes, 4, p)
    ensures |r| == 4 && forall k :: 0 <= k < 4 ==> |r[k]| == p.gridHeight * p.gridWidth
  {
    [FlatShift(boxes[0], p, true, true), FlatShift(boxes[1], p, true, false),
     FlatShift(boxes[2], p, false, true), FlatShift(boxes[3], p, false, false)]
  }

  /** The masked boxes as four rows of coordinates, and the masked scores. */
  function Reparameterize(boxes: seq<Plane>, scores: Plane, p: Params): (r: (seq<seq<real>>, seq<real>))
    requires p.Valid() && Channels(boxes, 4, p) && OnGrid(scores, p)
    ensures |r.0| == 4 && forall k :: 0 <= k < 4 ==> |r.0[k]| == |r.1|
  {
    FlatLength(scores, p);
    var flatScores := Flatten(scores);
    var mask := AboveMask(flatScores, p.scoreThreshold);
    var planes := DecodedPlanes(boxes, p);
    MaskedRowsAlign(planes, mask);
    MaskedIsGather(flatScores, mask);
    (Reshape4(MaskBoxes(planes, mask)), Masked(flatScores, mask))
  }

  // ----- alignment with the cells

  function BoxColumns(rows: seq<seq<real>>, n: nat): (r: seq<Box>)
    requires |rows| == 4 && forall k :: 0 <= k < 4 ==> |rows[k]| == n
    ensures |r| == n
  {
    seq(n, j requires 0 <= j < n => Box(rows[0][j], rows[1][j], rows[2][j], rows[3][j]))
  }

  lemma FlatCell(g: Plane, p: Params, q: nat)
    requires OnGrid(g, p) && q < p.gridHeight * p.gridWidth
    ensures |Flatten(g)| == p.gridHeight * p.gridWidth
    ensures p.gridWidth > 0 && 0 <= q / p.gridWidth < p.gridHeight && 0 <= q % p.gridWidth < p.gridWidth
    ensures Flatten(g)[q] == g[q / p.gridWidth][q % p.gridWidth]
  {
    FlatLength(g, p);
    CellOf(q, p.gridHeight, p.gridWidth);
    FlattenAt(g, p.gridWidth, q / p.gridWidth, q % p.gridWidth);
  }

  lemma FlatClassScores(scores: seq<Plane>, p: Params, cls: nat)
    requires p.Valid() && Channels(scores, 3, p) && cls < 3
    ensures Flatten(scores[cls]) == ClassScores(scores, p, cls)
  {
    FlatLength(scores[cls], p);
    forall q | 0 <= q < p.gridHeight * p.gridWidth
      ensures Flatten(scores[cls])[q] == ClassScores(scores, p, cls)[q]
    {
      FlatCell(scores[cls], p, q);
    }
  }

  lemma DecodedClassBoxes(boxes: seq<Plane>, p: Params, cls: nat)
    requires p.Valid() && Channels(boxes, 12, p) && cls < 3
    ensures Channels(boxes[4 * cls..4 * cls + 4], 4, p)
    ensures BoxColumns(DecodedPlanes(boxes[4 * cls..4 * cls + 4], p), p.gridHeight * p.gridWidth) ==
            ClassBoxes(boxes, p, cls)
  {
    var own := boxes[4 * cls..4 * cls + 4];
    forall q | 0 <= q < p.gridHeight * p.gridWidth
      ensures BoxColumns(DecodedPlanes(own, p), p.gridHeight * p.gridWidth)[q] == ClassBoxes(boxes, p, cls)[q]
    {
      DecodedCell(own, p, q);
    }
  }

  lemma DecodedCell(own: seq<Plane>, p: Params, q: nat)
    requires p.Valid() && Channels(own, 4, p) && q < p.gridHeight * p.gridWidth
    ensures 0 <= q / p.gridWidth < p.gridHeight && 0 <= q % p.gridWidth < p.gridWidth
    ensures var r, c := q / p.gridWidth, q % p.gridWidth;
            var rows := DecodedPlanes(own, p);
            && rows[0][q] == Before(own[0][r][c], CellX(c, p), p)
            && rows[1][q] == Before(own[1][r][c], CellY(r, p), p)
            && rows[2][q] == After(own[2][r][c], CellX(c, p), p)
            && rows[3][q] == After(own[3][r][c], CellY(r, p), p)
  {
    FlatCell(Shift(own[0], p, true, true), p, q);
    FlatCell(Shift(own[1], p, true, false), p, q);
    FlatCell(Shift(own[2], p, false, true), p, q);
    FlatCell(Shift(own[3], p, false, false), p, q);
  }

  /** Masking and reshaping keeps boxes and scores aligned: column `j` of both belongs to the
      `j`-th cell, in row-major order, whose score passes. */
  lemma ReparameterizeAligns(boxes: seq<Plane>, scores: seq<Plane>, p: Params, cls: nat)
    requires p.Valid() && Channels(boxes, 12, p) && Channels(scores, 3, p) && cls < 3
    ensures Channels(boxes[4 * cls..4 * cls + 4], 4, p)
    ensures var cells := Above(ClassScores(scores, p, cls), p.scoreThreshold);
            var (rows, kept) := Reparameterize(boxes[4 * cls..4 * cls + 4], scores[cls], p);
            && kept == Gather(ClassScores(scores, p, cls), cells)
            && BoxColumns(rows, |kept|) == Gather(ClassBoxes(boxes, p, cls), cells)
  {
    FlatClassScores(scores, p, cls);
    DecodedClassBoxes(boxes, p, cls);
    var mask := AboveMask(ClassScores(scores, p, cls), p.scoreThreshold);
    var planes := DecodedPlanes(boxes[4 * cls..4 * cls + 4], p);
    MaskedRowsAlign(planes, mask);
    MaskedIsGather(ClassScores(scores, p, cls), mask);
    forall j | 0 <= j < |Where(mask)|
      ensures BoxColumns(Reshape4(MaskBoxes(planes, mask)), |Where(mask)|)[j] ==
              BoxColumns(planes, p.gridHeight * p.gridWidth)[Where(mask)[j]]
    {
    }
  }

  // ----- the operator

  ghost predicate Collected(boxes: seq<Box>, scores: seq<real>, selected: seq<nat>,
                            boxesOut: seq<Box>, scoresOut: seq<real>)
  {
    && |scores| == |boxes| && Indexes(selected, |boxes|)
    && boxesOut == Gather(boxes, selected) && scoresOut == Gather(scores, selected)
  }

  lemma CollectMore(boxes: seq<Box>, scores: seq<real>, selected: seq<nat>,
                    boxesOut: seq<Box>, scoresOut: seq<real>, index: nat)
    requires Collected(boxes, scores, selected, boxesOut, scoresOut) && index < |boxes|
    ensures Collected(boxes, scores, selected + [index], boxesOut + [boxes[index]], scoresOut + [scores[index]])
  {
    GatherSnoc(boxes, selected, index);
    GatherSnoc(scores, selected, index);
  }

  /** The suppression loop over the columns of `boxes`. */
  method Nms(boxes: seq<Box>, scores: seq<real>, iouThreshold: real)
    returns (boxesOut: seq<Box>, scoresOut: seq<real>)
    requires |boxes| == |scores|
    ensures boxesOut == Gather(boxes, Keep(boxes, scores, iouThreshold))
    ensures scoresOut == Gather(scores, Keep(boxes, scores, iouThreshold))
  {
    var indices := ArgSort(scores);
    boxesOut, scoresOut := [], [];
    ghost var selected: seq<nat> := [];
    while |indices| > 0
      invariant Working(boxes, scores, iouThreshold, selected, indices)
      invariant Collected(boxes, scores, selected, boxesOut, scoresOut)
      decreases |indices|
    {
      var n := |indices| - 1;
      var index, others := indices[n], indices[..n];
      SplitLast(indices);
      PruneStep(boxes, scores, iouThreshold, selected, others, index);
      CollectMore(boxes, scores, selected, boxesOut, scoresOut, index);
      boxesOut := boxesOut + [boxes[index]];
      scoresOut := scoresOut + [scores[index]];
      selected := selected + [index];
      indices := Prune(boxes, iouThreshold, index, others);
    }
  }

  /** `a[:, [c, c + 2]] /= dim`, in place. */
  method DivideColumns(a: array2<real>, c: nat, dim: real)
    requires a.Length1 == 4 && c < 2 && dim != 0.0
    modifies a
    ensures forall i, j :: 0 <= i < a.Length0 && 0 <= j < 4 ==>
              a[i, j] == if j == c || j == c + 2 then old(a[i, j]) / dim else old(a[i, j])
  {
    for i := 0 to a.Length0
      invariant forall k, j :: 0 <= k < a.Length0 && 0 <= j < 4 ==>
                  a[k, j] == if k < i && (j == c || j == c + 2) then old(a[k, j]) / dim else old(a[k, j])
    {
      a[i, c] := a[i, c] / dim;
      a[i, c + 2] := a[i, c + 2] / dim;
    }
  }

  function ScaledBox(b: Box, p: Params): Box
    requires p.Valid()
  {
    Box(b.x0 / p.imageWidth, b.y0 / p.imageHeight, b.x1 / p.imageWidth, b.y1 / p.imageHeight)
  }

  /** Normalizes the kept boxes in place and reads them back. */
  method Normalize(boxes: seq<Box>, p: Params) returns (r: seq<Box>)
    requires p.Valid()
    ensures |r| == |boxes| && forall k :: 0 <= k < |boxes| ==> r[k] == ScaledBox(boxes[k], p)
  {
    var a := new real[|boxes|, 4]((i, j) requires 0 <= i < |boxes| && 0 <= j < 4 =>
      if j == 0 then boxes[i].x0 else if j == 1 then boxes[i].y0 else if j == 2 then boxes[i].x1 else boxes[i].y1);
    DivideColumns(a, 0, p.imageWidth);
    DivideColumns(a, 1, p.imageHeight);
    r := [];
    for i := 0 to |boxes|
      invariant |r| == i && forall k :: 0 <= k < i ==> r[k] == ScaledBox(boxes[k], p)
    {
      r := r + [Box(a[i, 0], a[i, 1], a[i, 2], a[i, 3])];
    }
  }

  datatype Label = Person | Faces

  const LABELS: seq<Label> := [Person, Faces]

  /** The cells a label shows, best first: suppress over the whole grid, then drop the low scores. */
  ghost function Shown(boxes: seq<Plane>, scores: seq<Plane>, p: Params, cls: nat): (r: seq<nat>)
    requires p.Valid() && Channels(boxes, 12, p) && Channels(scores, 3, p) && cls < 3
    ensures Indexes(r, p.gridHeight * p.gridWidth)
  {
    OnlyAbove(ClassScores(scores, p, cls), p.scoreThreshold,
              Keep(ClassBoxes(boxes, p, cls), ClassScores(scores, p, cls), p.iouThreshold))
  }

  /** Rows `2k` and `2k + 1` are the normalized corners of the box of the `k`-th shown cell. */
  ghost predicate Renders(ps: seq<Point>, boxes: seq<Plane>, scores: seq<Plane>, p: Params, cls: nat)
    requires p.Valid() && Channels(boxes, 12, p) && Channels(scores, 3, p) && cls < 3
  {
    var shown := Shown(boxes, scores, p, cls);
    if shown == [] then ps == [Point(0.0, 0.0), Point(0.0, 0.0)]
    else
      && |ps| == 2 * |shown|
      && forall k :: 0 <= k < |shown| ==>
           var b := ClassBoxes(boxes, p, cls)[shown[k]];
           && ps[2 * k] == Point(b.x0 / p.imageWidth, b.y0 / p.imageHeight)
           && ps[2 * k + 1] == Point(b.x1 / p.imageWidth, b.y1 / p.imageHeight)
  }

  /** One label: decode its own planes, suppress, normalize. */
  method Detect(own: seq<Plane>, plane: Plane, p: Params,
                ghost boxes: seq<Plane>, ghost scores: seq<Plane>, ghost cls: nat)
    returns (ps: seq<Point>)
    requires p.Valid() && Channels(boxes, 12, p) && Channels(scores, 3, p) && cls < 3
    requires own == boxes[4 * cls..4 * cls + 4] && plane == scores[cls]
    ensures Renders(ps, boxes, scores, p, cls)
  {
    ReparameterizeAligns(boxes, scores, p, cls);
    FilterCommutes(ClassBoxes(boxes, p, cls), ClassScores(scores, p, cls), p.iouThreshold, p.scoreThreshold);
    var (rows, kept) := Reparameterize(own, plane, p);
    var boxesOut, _ := Nms(BoxColumns(rows, |kept|), kept, p.iouThreshold);
    if |boxesOut| == 0 {
      ps := ZEROS;
    } else {
      var scaled := Normalize(boxesOut, p);
      ps := CornerPoints(scaled);
      CornerPointsAt(scaled);
    }
  }

  /** The model's classes are 0, person; 1, bag; and 2, face: label `i` is class `2 i`. */
  lemma ChosenChannels(boxes: seq<Plane>, scores: seq<Plane>, p: Params, i: nat)
    requires Channels(boxes, 12, p) && Channels(scores, 3, p) && i < 2
    ensures |LABELS| == 2 && (if i == 0 then LABELS[i] == Person else LABELS[i] == Faces)
    ensures Gather(boxes, BOX_CHANNELS)[4 * i..4 * i + 4] == boxes[8 * i..8 * i + 4]
    ensures Gather(scores, SCORE_CHANNELS)[i] == scores[2 * i]
  {
    if i == 0 {
    } else {
    }
  }

  /** One label from the gathered channels. */
  method DetectLabel(boxes: seq<Plane>, scores: seq<Plane>, chosenBoxes: seq<Plane>, chosenScores: seq<Plane>,
                     p: Params, i: nat)
    returns (ps: seq<Point>)
    requires p.Valid() && Channels(boxes, 12, p) && Channels(scores, 3, p) && i < 2
    requires chosenBoxes == Gather(boxes, BOX_CHANNELS) && chosenScores == Gather(scores, SCORE_CHANNELS)
    ensures Renders(ps, boxes, scores, p, 2 * i)
  {
    ChosenChannels(boxes, scores, p, i);
    ps := Detect(chosenBoxes[4 * i..4 * i + 4], chosenScores[i], p, boxes, scores, 2 * i);
  }

  /** The operator: each label shows its own class, wherever its channels lie in the model output. */
  method Compute(boxes: seq<Plane>, scores: seq<Plane>, p: Params) returns (out: map<Label, seq<Point>>)
    requires p.Valid() && Channels(boxes, 12, p) && Channels(scores, 3, p)
    ensures Person in out && Renders(out[Person], boxes, scores, p, 0)
    ensures Faces in out && Renders(out[Faces], boxes, scores, p, 2)
  {
    var chosenBoxes := Gather(boxes, BOX_CHANNELS);
    var chosenScores := Gather(scores, SCORE_CHANNELS);
    out := map[];
    for i := 0 to |LABELS|
      invariant ShowsFirst(out, i, boxes, scores, p)
    {
      var ps := DetectLabel(boxes, scores, chosenBoxes, chosenScores, p, i);
      ShowsNext(out, i, ps, boxes, scores, p);
      out := out[LABELS[i] := ps];
    }
    ShowsBoth(out, boxes, scores, p);
  }

  /** The first `i` labels are as they should be. */
  ghost predicate ShowsFirst(out: map<Label, seq<Point>>, i: nat, boxes: seq<Plane>, scores: seq<Plane>, p: Params)
    requires p.Valid() && Channels(boxes, 12, p) && Channels(scores, 3, p) && i <= 2
  {
    i > 0 ==>
      && ShowsFirst(out, i - 1, boxes, scores, p)
      && LABELS[i - 1] in out && Renders(out[LABELS[i - 1]], boxes, scores, p, 2 * (i - 1))
  }

  lemma ShowsNext(out: map<Label, seq<Point>>, i: nat, ps: seq<Point>,
                  boxes: seq<Plane>, scores: seq<Plane>, p: Params)
    requires p.Valid() && Channels(boxes, 12, p) && Channels(scores, 3, p) && i < 2
    requires ShowsFirst(out, i, boxes, scores, p) && Renders(ps, boxes, scores, p, 2 * i)
    ensures ShowsFirst(out[LABELS[i] := ps], i + 1, boxes, scores, p)
  {
    var out' := out[LABELS[i] := ps];
    assert ShowsFirst(out', 0, boxes, scores, p);
    if i == 1 {
      assert out'[LABELS[0]] == out[LABELS[0]];
      assert ShowsFirst(out', 1, boxes, scores, p);
    }
  }

  lemma ShowsBoth(out: map<Label, seq<Point>>, boxes: seq<Plane>, scores: seq<Plane>, p: Params)
    requires p.Valid() && Channels(boxes, 12, p) && Channels(scores, 3, p) && ShowsFirst(out, 2, boxes, scores, p)
    ensures Person in out && Renders(out[Person], boxes, scores, p, 0)
    ensures Faces in out && Renders(out[Faces], boxes, scores, p, 2)
  {
    assert ShowsFirst(out, 1, boxes, scores, p);
  }

  /** The shown cells in terms of the class's scores and boxes, as in the body-pose operator. */
  lemma ShownCells(boxes: seq<Plane>, scores: seq<Plane>, p: Params, cls: nat)
    requires p.Valid() && Channels(boxes, 12, p) && Channels(scores, 3, p) && cls < 3
    ensures var shown, bs := Shown(boxes, scores, p, cls), ClassBoxes(boxes, p, cls);
            var score := ClassScores(scores, p, cls);
            && (forall a, b :: 0 <= a < b < |shown| ==>
                  && p.scoreThreshold < score[shown[b]] <= score[shown[a]]
                  && (score[shown[b]] == score[shown[a]] ==> shown[b] < shown[a])
                  && IouBelow(bs[shown[a]], bs[shown[b]], p.iouThreshold))
            && (forall q: nat :: q < |score| && score[q] > p.scoreThreshold && q !in shown ==>
                  exists a :: 0 <= a < |shown| && score[shown[a]] >= score[q] &&
                              !IouBelow(bs[shown[a]], bs[q], p.iouThreshold))
            && (forall q: nat :: q in shown ==> score[q] > p.scoreThreshold)
  {
    ShownSeparate(ClassBoxes(boxes, p, cls), ClassScores(scores, p, cls), p.iouThreshold, p.scoreThreshold);
  }

  /** A decoded box reaches its four scaled distances out from the cell's place in the image; its
      corners are in order exactly when the distances along each axis do not add up to less than
      nothing, wherever the cell is. */
  lemma CellBoxAround(boxes: seq<Plane>, p: Params, cls: nat, r: nat, c: nat)
    requires p.Valid() && Channels(boxes, 12, p) && cls < 3 && r < p.gridHeight && c < p.gridWidth
    ensures var b := CellBox(boxes, p, cls, r, c);
            var x := c as real * (p.imageWidth / p.gridWidth as real);
            var y := r as real * (p.imageHeight / p.gridHeight as real);
            var left := (boxes[4 * cls][r][c] + p.boxOffset) * p.boxScale;
            var top := (boxes[4 * cls + 1][r][c] + p.boxOffset) * p.boxScale;
            var right := (boxes[4 * cls + 2][r][c] + p.boxOffset) * p.boxScale;
            var bottom := (boxes[4 * cls + 3][r][c] + p.boxOffset) * p.boxScale;
            && x - b.x0 == left && y - b.y0 == top && b.x1 - x == right && b.y1 - y == bottom
            && (Proper(b) <==> left + right >= 0.0 && top + bottom >= 0.0)
  {
    ReachesAround(boxes[4 * cls][r][c], CellX(c, p), p);
    ReachesAround(boxes[4 * cls + 1][r][c], CellY(r, p), p);
    ReachesAround(boxes[4 * cls + 2][r][c], CellX(c, p), p);
    ReachesAround(boxes[4 * cls + 3][r][c], CellY(r, p), p);
  }

  lemma ReachesAround(v: real, at: real, p: Params)
    ensures at - Before(v, at, p) == (v + p.boxOffset) * p.boxScale == After(v, at, p) - at
  {
    assert -(v + p.boxOffset) * p.boxScale == -((v + p.boxOffset) * p.boxScale);
  }
}
