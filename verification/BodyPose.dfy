/** The body-pose post-processor: score filter, box and keypoint decoding, suppression, and the
    tensors handed to the visualizer. */
module BodyPose {
  import opened TensorOps
  import opened Boxes
  import opened Ranking
  import opened Suppression
  import opened SuppressionLaws

  datatype Part =
    | Nose | LeftEye | RightEye | LeftEar | RightEar | LeftShoulder | RightShoulder
    | LeftElbow | RightElbow | LeftWrist | RightWrist | LeftHip | RightHip
    | LeftKnee | RightKnee | LeftAnkle | RightAnkle

  const PARTS: seq<Part> := [
    Nose, LeftEye, RightEye, LeftEar, RightEar, LeftShoulder, RightShoulder,
    LeftElbow, RightElbow, LeftWrist, RightWrist, LeftHip, RightHip,
    LeftKnee, RightKnee, LeftAnkle, RightAnkle
  ]

  datatype Joint = Neck | At(part: Part)

  /** The emitted tensors, as rows of two. */
  datatype Tensors = Tensors(boxes: seq<Point>, keypoints: map<Part, seq<Point>>, segments: seq<Point>)

  datatype Params = Params(iouThreshold: real, scoreThreshold: real, imageDim: real)

  /** One model output column: centre, size, score, then an (x, y, visibility) triple per part. */
  const ROWS := 56
  const SCORE := 4

  /** Where each part's (x, y) slice starts in a detection. */
  function SliceStart(part: Part): (r: nat)
    ensures 5 <= r && r + 3 <= ROWS
  {
    match part
    case Nose => 5
    case LeftEye => 8
    case RightEye => 11
    case LeftEar => 14
    case RightEar => 17
    case LeftShoulder => 20
    case RightShoulder => 23
    case LeftElbow => 26
    case RightElbow => 29
    case LeftWrist => 32
    case RightWrist => 35
    case LeftHip => 38
    case RightHip => 41
    case LeftKnee => 44
    case RightKnee => 47
    case LeftAnkle => 50
    case RightAnkle => 53
  }

  lemma EveryPartListed()
    ensures forall part: Part :: part in PARTS
  {
    forall part: Part ensures part in PARTS {
      assert PARTS[(SliceStart(part) - 5) / 3] == part;
    }
  }

  /** The slices are the first two rows of consecutive triples that fill the detection. */
  lemma SlicesTile(i: nat)
    requires i < |PARTS|
    ensures SliceStart(PARTS[i]) == 5 + 3 * i && 5 + 3 * |PARTS| == ROWS
  {
  }

  /** The nose comes first, then each part on the left and on the right, from the eyes down. */
  lemma SidesAlternate(i: nat)
    requires i < 8
    ensures SliceStart(Nose) == 5
    ensures var left := [LeftEye, LeftEar, LeftShoulder, LeftElbow, LeftWrist, LeftHip, LeftKnee, LeftAnkle];
            SliceStart(left[i]) == 8 + 6 * i
    ensures var right := [RightEye, RightEar, RightShoulder, RightElbow, RightWrist, RightHip, RightKnee, RightAnkle];
            SliceStart(right[i]) == 11 + 6 * i
  {
  }

  function PartAt(d: seq<real>, part: Part): Point
    requires |d| == ROWS
  {
    Point(d[SliceStart(part)], d[SliceStart(part) + 1])
  }

  function JointAt(d: seq<real>, joint: Joint): Point
    requires |d| == ROWS
  {
    match joint
    case At(part) => PartAt(d, part)
    case Neck =>
      var l, r := PartAt(d, LeftShoulder), PartAt(d, RightShoulder);
      Point((l.x + r.x) / 2.0, (l.y + r.y) / 2.0)
  }

  /** Which rows of a detection the ends of the drawn bones are, two ends a bone: each row holds an x
      coordinate and the next row its y; 0 stands for the neck, halfway between the shoulders. */
  const END_ROWS: seq<nat> := [
    5, 8, 5, 11, 8, 14, 11, 17, 20, 23, 20, 26, 26, 32, 23, 29, 29, 35,
    20, 38, 38, 44, 44, 50, 23, 41, 41, 47, 47, 53, 38, 41, 14, 0, 17, 0
  ]

  ghost function EndPoint(d: seq<real>, x: nat): Point
    requires |d| == 56 && x < 36
  {
    if END_ROWS[x] == 0 then Point((d[20] + d[23]) / 2.0, (d[21] + d[24]) / 2.0)
    else Point(d[END_ROWS[x]], d[END_ROWS[x] + 1])
  }

  /** The drawn skeleton, bone by bone. */
  const BONES: seq<(Joint, Joint)> := [
    (At(Nose), At(LeftEye)), (At(Nose), At(RightEye)),
    (At(LeftEye), At(LeftEar)), (At(RightEye), At(RightEar)),
    (At(LeftShoulder), At(RightShoulder)),
    (At(LeftShoulder), At(LeftElbow)), (At(LeftElbow), At(LeftWrist)),
    (At(RightShoulder), At(RightElbow)), (At(RightElbow), At(RightWrist)),
    (At(LeftShoulder), At(LeftHip)), (At(LeftHip), At(LeftKnee)), (At(LeftKnee), At(LeftAnkle)),
    (At(RightShoulder), At(RightHip)), (At(RightHip), At(RightKnee)), (At(RightKnee), At(RightAnkle)),
    (At(LeftHip), At(RightHip)),
    (At(LeftEar), Neck), (At(RightEar), Neck)
  ]

  function SegmentPoints(d: seq<real>): (r: seq<Point>)
    requires |d| == ROWS
    ensures |r| == 2 * |BONES| == 36
  {
    seq(2 * |BONES|, k requires 0 <= k < 2 * |BONES| =>
      JointAt(d, if k % 2 == 0 then BONES[k / 2].0 else BONES[k / 2].1))
  }

  function BoxOf(d: seq<real>): Box
    requires |d| == ROWS
  {
    Box(d[0] - d[2] / 2.0, d[1] - d[3] / 2.0, d[0] + d[2] / 2.0, d[1] + d[3] / 2.0)
  }

  // ----- what the operator should emit

  ghost predicate Shaped(raw: seq<seq<real>>, n: nat) {
    |raw| == ROWS && forall r :: 0 <= r < ROWS ==> |raw[r]| == n
  }

  /** Column `j` of the model output. */
  function DetectionAt(raw: seq<seq<real>>, n: nat, j: nat): (d: seq<real>)
    requires Shaped(raw, n) && j < n
    ensures |d| == ROWS && forall r :: 0 <= r < 56 ==> d[r] == raw[r][j]
  {
    seq(ROWS, r requires 0 <= r < ROWS => raw[r][j])
  }

  function AllBoxes(raw: seq<seq<real>>, n: nat): (r: seq<Box>)
    requires Shaped(raw, n)
    ensures |r| == n
  {
    seq(n, j requires 0 <= j < n => BoxOf(DetectionAt(raw, n, j)))
  }

  /** The columns to show, best first: suppress over all columns, then drop the low scores. */
  function Shown(raw: seq<seq<real>>, n: nat, p: Params): (r: seq<nat>)
    requires Shaped(raw, n)
  {
    OnlyAbove(raw[4], p.scoreThreshold, Keep(AllBoxes(raw, n), raw[4], p.iouThreshold))
  }

  ghost predicate AreDetections(dets: seq<seq<real>>) {
    forall k :: 0 <= k < |dets| ==> |dets[k]| == ROWS
  }

  ghost predicate RendersPart(ps: seq<Point>, dets: seq<seq<real>>, part: Part, dim: real)
    requires dim != 0.0 && AreDetections(dets)
  {
    && |ps| == |dets|
    && forall k :: 0 <= k < |dets| ==>
         ps[k] == Point(dets[k][SliceStart(part)] / dim, dets[k][SliceStart(part) + 1] / dim)
  }

  ghost predicate RendersBones(ps: seq<Point>, dets: seq<seq<real>>, dim: real)
    requires dim != 0.0 && AreDetections(dets)
  {
    && |ps| == 36 * |dets|
    && forall k, x :: 0 <= k < |dets| && 0 <= x < 36 ==>
         ps[36 * k + x] == Point(EndPoint(dets[k], x).x / dim, EndPoint(dets[k], x).y / dim)
  }

  ghost predicate RendersCorners(ps: seq<Point>, dets: seq<seq<real>>, dim: real)
    requires dim != 0.0 && AreDetections(dets)
  {
    && |ps| == 2 * |dets|
    && forall k :: 0 <= k < |dets| ==>
         var d := dets[k];
         && ps[2 * k] == Point((d[0] - d[2] / 2.0) / dim, (d[1] - d[3] / 2.0) / dim)
         && ps[2 * k + 1] == Point((d[0] + d[2] / 2.0) / dim, (d[1] + d[3] / 2.0) / dim)
  }

  /** Row `k` of every tensor belongs to detection `k` of `dets`. */
  ghost predicate Renders(out: Tensors, dets: seq<seq<real>>, dim: real)
    requires dim != 0.0 && AreDetections(dets)
  {
    && RendersCorners(out.boxes, dets, dim)
    && (forall part: Part :: part in out.keypoints && RendersPart(out.keypoints[part], dets, part, dim))
    && RendersBones(out.segments, dets, dim)
  }

  // ----- the operator

  /** The output lists hold what the selected indices pick. */
  ghost predicate Collected(boxes: seq<Box>, segments: seq<seq<Point>>, selected: seq<nat>,
                            boxesOut: seq<Box>, segmentsOut: seq<Point>)
  {
    && |segments| == |boxes| && Indexes(selected, |boxes|)
    && boxesOut == Gather(boxes, selected)
    && segmentsOut == Flatten(Gather(segments, selected))
  }

  lemma CollectMore(boxes: seq<Box>, segments: seq<seq<Point>>, selected: seq<nat>,
                    boxesOut: seq<Box>, segmentsOut: seq<Point>, index: nat)
    requires Collected(boxes, segments, selected, boxesOut, segmentsOut) && index < |boxes|
    ensures Collected(boxes, segments, selected + [index], boxesOut + [boxes[index]], segmentsOut + segments[index])
  {
    GatherSnoc(boxes, selected, index);
    GatherSnoc(segments, selected, index);
    FlattenSnoc(Gather(segments, selected), segments[index]);
  }

  /** The suppression loop over `boxes`, carrying the boxes and segments of what it selects. */
  method Select(boxes: seq<Box>, segments: seq<seq<Point>>, scores: seq<real>, iouThreshold: real)
    returns (boxesOut: seq<Box>, segmentsOut: seq<Point>, selected: seq<nat>)
    requires |boxes| == |segments| == |scores|
    ensures selected == Keep(boxes, scores, iouThreshold)
    ensures boxesOut == Gather(boxes, selected)
    ensures segmentsOut == Flatten(Gather(segments, selected))
  {
    var indices := ArgSort(scores);
    boxesOut, segmentsOut, selected := [], [], [];
    while |indices| > 0
      invariant Working(boxes, scores, iouThreshold, selected, indices)
      invariant Collected(boxes, segments, selected, boxesOut, segmentsOut)
      decreases |indices|
    {
      var n := |indices| - 1;
      var index, others := indices[n], indices[..n];
      SplitLast(indices);
      PruneStep(boxes, scores, iouThreshold, selected, others, index);
      CollectMore(boxes, segments, selected, boxesOut, segmentsOut, index);
      boxesOut := boxesOut + [boxes[index]];
      segmentsOut := segmentsOut + segments[index];
      selected := selected + [index];
      indices := Prune(boxes, iouThreshold, index, others);
    }
  }

  /** Suppression over all arrays: the keypoint arrays are indexed by the selection afterwards. */
  method Nms(boxes: seq<Box>, segments: seq<seq<Point>>, keypoints: map<Part, seq<Point>>,
             scores: seq<real>, iouThreshold: real)
    returns (boxesOut: seq<Box>, segmentsOut: seq<Point>, keypointsOut: map<Part, seq<Point>>,
             selected: seq<nat>)
    requires |boxes| == |segments| == |scores|
    requires forall part: Part :: part in keypoints && |keypoints[part]| == |scores|
    ensures selected == Keep(boxes, scores, iouThreshold)
    ensures boxesOut == Gather(boxes, selected)
    ensures segmentsOut == Flatten(Gather(segments, selected))
    ensures forall part: Part :: part in keypointsOut && keypointsOut[part] == Gather(keypoints[part], selected)
  {
    boxesOut, segmentsOut, selected := Select(boxes, segments, scores, iouThreshold);
    keypointsOut := map part: Part | part in keypoints :: Gather(keypoints[part], selected);
  }

  function ScaleAll(ps: seq<Point>, dim: real): (r: seq<Point>)
    requires dim != 0.0
    ensures |r| == |ps| && forall k :: 0 <= k < |ps| ==> r[k] == ps[k].Scaled(dim)
  {
    seq(|ps|, k requires 0 <= k < |ps| => ps[k].Scaled(dim))
  }

  function BoxesOf(dets: seq<seq<real>>): (r: seq<Box>)
    requires AreDetections(dets)
    ensures |r| == |dets|
  {
    seq(|dets|, k requires 0 <= k < |dets| => BoxOf(dets[k]))
  }

  function SegmentsOf(dets: seq<seq<real>>): (r: seq<seq<Point>>)
    requires AreDetections(dets)
    ensures |r| == |dets|
  {
    seq(|dets|, k requires 0 <= k < |dets| => SegmentPoints(dets[k]))
  }

  function PartsOf(dets: seq<seq<real>>, part: Part): (r: seq<Point>)
    requires AreDetections(dets)
    ensures |r| == |dets|
  {
    seq(|dets|, k requires 0 <= k < |dets| => PartAt(dets[k], part))
  }

  lemma ScaledCorners(dets: seq<seq<real>>, dim: real)
    requires dim != 0.0 && AreDetections(dets)
    ensures RendersCorners(ScaleAll(CornerPoints(BoxesOf(dets)), dim), dets, dim)
  {
    CornerPointsAt(BoxesOf(dets));
  }

  lemma ScaledBones(dets: seq<seq<real>>, dim: real)
    requires dim != 0.0 && AreDetections(dets)
    ensures RendersBones(ScaleAll(Flatten(SegmentsOf(dets)), dim), dets, dim)
  {
    FlattenLength(SegmentsOf(dets), 36);
    forall k, x | 0 <= k < |dets| && 0 <= x < 36
      ensures ScaleAll(Flatten(SegmentsOf(dets)), dim)[36 * k + x] ==
              Point(EndPoint(dets[k], x).x / dim, EndPoint(dets[k], x).y / dim)
    {
      BoneRows(dets, k, x);
    }
  }

  /** Row `36 k + x` of the flat segments is end `x` of detection `k`'s bones. */
  lemma BoneRows(dets: seq<seq<real>>, k: nat, x: nat)
    requires AreDetections(dets) && k < |dets| && x < 36
    ensures var flat := Flatten(SegmentsOf(dets));
            |flat| == 36 * |dets| && 36 * k + x < |flat| && flat[36 * k + x] == EndPoint(dets[k], x)
  {
    FlattenAt(SegmentsOf(dets), 36, k, x);
    SegmentEnd(dets[k], x);
  }

  lemma SegmentEnd(d: seq<real>, x: nat)
    requires |d| == ROWS && x < 36
    ensures SegmentPoints(d)[x] == EndPoint(d, x)
  {
    var s := x / 2;
    var joint := if x % 2 == 0 then BONES[s].0 else BONES[s].1;
    assert SegmentPoints(d)[x] == JointAt(d, joint);
    EndJoint(x);
  }

  predicate RowIsJoint(x: nat)
    requires x < 36
  {
    var joint := if x % 2 == 0 then BONES[x / 2].0 else BONES[x / 2].1;
    END_ROWS[x] == if joint.Neck? then 0 else SliceStart(joint.part)
  }

  /** The joints are those of the rows. */
  lemma EndJoint(x: nat)
    requires x < 36
    ensures RowIsJoint(x)
  {
    if x < 6 {
      FaceJoints();
    } else if x < 12 {
      ShoulderJoints();
    } else if x < 18 {
      ArmJoints();
    } else if x < 24 {
      HipJoints();
    } else if x < 30 {
      LegJoints();
    } else {
      NeckJoints();
    }
  }

  lemma FaceJoints()
    ensures forall x :: 0 <= x < 6 ==> RowIsJoint(x)
  {
    assert RowIsJoint(0) && RowIsJoint(1) && RowIsJoint(2) && RowIsJoint(3) && RowIsJoint(4) && RowIsJoint(5);
  }

  lemma ShoulderJoints()
    ensures forall x :: 6 <= x < 12 ==> RowIsJoint(x)
  {
    assert RowIsJoint(6) && RowIsJoint(7) && RowIsJoint(8) && RowIsJoint(9) && RowIsJoint(10) && RowIsJoint(11);
  }

  lemma ArmJoints()
    ensures forall x :: 12 <= x < 18 ==> RowIsJoint(x)
  {
    assert RowIsJoint(12) && RowIsJoint(13) && RowIsJoint(14) && RowIsJoint(15) && RowIsJoint(16) && RowIsJoint(17);
  }

  lemma HipJoints()
    ensures forall x :: 18 <= x < 24 ==> RowIsJoint(x)
  {
    assert RowIsJoint(18) && RowIsJoint(19) && RowIsJoint(20) && RowIsJoint(21) && RowIsJoint(22) && RowIsJoint(23);
  }

  lemma LegJoints()
    ensures forall x :: 24 <= x < 30 ==> RowIsJoint(x)
  {
    assert RowIsJoint(24) && RowIsJoint(25) && RowIsJoint(26) && RowIsJoint(27) && RowIsJoint(28) && RowIsJoint(29);
  }

  lemma NeckJoints()
    ensures forall x :: 30 <= x < 36 ==> RowIsJoint(x)
  {
    assert RowIsJoint(30) && RowIsJoint(31) && RowIsJoint(32) && RowIsJoint(33) && RowIsJoint(34) && RowIsJoint(35);
  }

  lemma ScaledParts(dets: seq<seq<real>>, part: Part, dim: real)
    requires dim != 0.0 && AreDetections(dets)
    ensures RendersPart(ScaleAll(PartsOf(dets, part), dim), dets, part, dim)
  {
  }

  /** Divides every tensor by the image size. */
  function Normalized(t: Tensors, dim: real): Tensors
    requires dim != 0.0
  {
    Tensors(ScaleAll(t.boxes, dim),
            map part | part in t.keypoints :: ScaleAll(t.keypoints[part], dim),
            ScaleAll(t.segments, dim))
  }

  lemma NormalizedRenders(t: Tensors, dets: seq<seq<real>>, dim: real)
    requires dim != 0.0 && AreDetections(dets)
    requires t.boxes == CornerPoints(BoxesOf(dets)) && t.segments == Flatten(SegmentsOf(dets))
    requires forall part: Part :: part in t.keypoints && t.keypoints[part] == PartsOf(dets, part)
    ensures Renders(Normalized(t, dim), dets, dim)
  {
    ScaledCorners(dets, dim);
    ScaledBones(dets, dim);
    forall part: Part { ScaledParts(dets, part, dim); }
  }

  ghost function Detections(raw: seq<seq<real>>, n: nat, cols: seq<nat>): (r: seq<seq<real>>)
    requires Shaped(raw, n) && Indexes(cols, n)
    ensures |r| == |cols| && AreDetections(r)
  {
    seq(|cols|, k requires 0 <= k < |cols| => DetectionAt(raw, n, cols[k]))
  }

  /** Filtering first and suppressing what is left selects the same columns. */
  lemma ShownAfterFiltering(raw: seq<seq<real>>, n: nat, p: Params)
    requires Shaped(raw, n)
    ensures var left := Above(raw[SCORE], p.scoreThreshold);
            var kept := Keep(Gather(AllBoxes(raw, n), left), Gather(raw[SCORE], left), p.iouThreshold);
            && Indexes(Shown(raw, n, p), n)
            && Shown(raw, n, p) == Gather(left, kept)
            && (left != [] ==> kept != [])
  {
    var left := Above(raw[SCORE], p.scoreThreshold);
    FilterCommutes(AllBoxes(raw, n), raw[SCORE], p.iouThreshold, p.scoreThreshold);
    KeepNonEmpty(Gather(AllBoxes(raw, n), left), Gather(raw[SCORE], left), p.iouThreshold);
  }

  /** The flat points of each detection's eighteen bones, two a bone, one list per detection. */
  method BuildSegments(detections: seq<seq<real>>) returns (segments: seq<seq<Point>>)
    requires AreDetections(detections)
    ensures segments == SegmentsOf(detections)
  {
    segments := [];
    for i := 0 to |detections|
      invariant |segments| == i && forall k :: 0 <= k < i ==> segments[k] == SegmentPoints(detections[k])
    {
      segments := segments + [SegmentPoints(detections[i])];
    }
  }

  /** Selecting from the decoded arrays decodes the selected detections. */
  lemma GatherDecoded(dets: seq<seq<real>>, selected: seq<nat>)
    requires AreDetections(dets) && Indexes(selected, |dets|)
    ensures var kept := Gather(dets, selected);
            && Gather(BoxesOf(dets), selected) == BoxesOf(kept)
            && Gather(SegmentsOf(dets), selected) == SegmentsOf(kept)
            && forall part: Part :: Gather(PartsOf(dets, part), selected) == PartsOf(kept, part)
  {
  }

  /** Decodes the detections, suppresses, and emits what is kept. */
  method Decode(detections: seq<seq<real>>, scores: seq<real>, p: Params) returns (out: Tensors)
    requires AreDetections(detections) && |scores| == |detections| && p.imageDim != 0.0
    ensures var kept := Keep(BoxesOf(detections), scores, p.iouThreshold);
            Renders(out, Gather(detections, kept), p.imageDim)
  {
    var segments := BuildSegments(detections);
    EveryPartListed();
    var keypoints := map part | part in PARTS :: PartsOf(detections, part);
    var boxesOut, segmentsOut, keypointsOut, selected :=
      Nms(BoxesOf(detections), segments, keypoints, scores, p.iouThreshold);
    GatherDecoded(detections, selected);
    var t := Tensors(CornerPoints(boxesOut), keypointsOut, segmentsOut);
    out := Normalized(t, p.imageDim);
    NormalizedRenders(t, Gather(detections, selected), p.imageDim);
  }

  lemma DetectionsGathered(raw: seq<seq<real>>, n: nat, left: seq<nat>, selected: seq<nat>)
    requires Shaped(raw, n) && Indexes(left, n) && Indexes(selected, |left|)
    ensures Gather(Detections(raw, n, left), selected) == Detections(raw, n, Gather(left, selected))
    ensures BoxesOf(Detections(raw, n, left)) == Gather(AllBoxes(raw, n), left)
  {
  }

  lemma AboveOrEmpty(scores: seq<real>, s: real)
    ensures Above(scores, s) != [] <==> exists j :: 0 <= j < |scores| && scores[j] > s
  {
    var above := Above(scores, s);
    assert above == [] || above[0] in above;
    assert forall j: nat | j < |scores| :: scores[j] > s ==> j in above;
  }

  /** `raw[:, left]`. */
  function Columns(raw: seq<seq<real>>, left: seq<nat>): (r: seq<seq<real>>)
    requires |raw| == ROWS && forall r :: 0 <= r < ROWS ==> Indexes(left, |raw[r]|)
    ensures |r| == ROWS && forall i :: 0 <= i < ROWS ==> r[i] == Gather(raw[i], left)
  {
    seq(ROWS, r requires 0 <= r < ROWS => Gather(raw[r], left))
  }

  function Transposed(rows: seq<seq<real>>, n: nat): (r: seq<seq<real>>)
    requires Shaped(rows, n)
    ensures |r| == n && AreDetections(r)
  {
    seq(n, k requires 0 <= k < n => DetectionAt(rows, n, k))
  }

  lemma ColumnsTransposed(raw: seq<seq<real>>, n: nat, left: seq<nat>)
    requires Shaped(raw, n) && Indexes(left, n)
    ensures Transposed(Columns(raw, left), |left|) == Detections(raw, n, left)
  {
    forall k | 0 <= k < |left|
      ensures DetectionAt(Columns(raw, left), |left|, k) == DetectionAt(raw, n, left[k])
    {
    }
  }

  /** The operator: every tensor lists the same detections, those that suppression over the whole
      frame keeps and that score above the threshold, best first; without any, two zero points. */
  method Compute(raw: seq<seq<real>>, n: nat, p: Params) returns (out: Tensors)
    requires Shaped(raw, n) && p.imageDim != 0.0
    ensures Indexes(Shown(raw, n, p), n)
    ensures if exists j :: 0 <= j < n && raw[4][j] > p.scoreThreshold
            then Shown(raw, n, p) != [] && Renders(out, Detections(raw, n, Shown(raw, n, p)), p.imageDim)
            else
              && out.boxes == out.segments == [Point(0.0, 0.0), Point(0.0, 0.0)]
              && forall part: Part ::
                   part in out.keypoints && out.keypoints[part] == [Point(0.0, 0.0), Point(0.0, 0.0)]
  {
    var left := Above(raw[SCORE], p.scoreThreshold);
    ShownAfterFiltering(raw, n, p);
    AboveOrEmpty(raw[SCORE], p.scoreThreshold);
    if |left| == 0 {
      EveryPartListed();
      out := Tensors(ZEROS, map part | part in PARTS :: ZEROS, ZEROS);
      return;
    }
    var results := Columns(raw, left);
    var detections := Transposed(results, |left|);
    ColumnsTransposed(raw, n, left);
    DetectionsGathered(raw, n, left, Keep(BoxesOf(detections), results[SCORE], p.iouThreshold));
    out := Decode(detections, results[SCORE], p);
  }

  // ----- what a viewer sees

  /** The shown columns in terms of the model output: they score above the threshold and descend in
      score, earlier columns of one score after later ones; no two of their boxes overlap too much;
      and every other column above the threshold overlaps one of them, ranked before it, too much. */
  lemma ShownColumns(raw: seq<seq<real>>, n: nat, p: Params)
    requires Shaped(raw, n)
    ensures var shown, boxes := Shown(raw, n, p), AllBoxes(raw, n);
            && Indexes(shown, n)
            && (forall a, b :: 0 <= a < b < |shown| ==>
                  && p.scoreThreshold < raw[4][shown[b]] <= raw[4][shown[a]]
                  && (raw[4][shown[b]] == raw[4][shown[a]] ==> shown[b] < shown[a])
                  && IouBelow(boxes[shown[a]], boxes[shown[b]], p.iouThreshold))
            && (forall j: nat :: j < n && raw[4][j] > p.scoreThreshold && j !in shown ==>
                  exists a :: 0 <= a < |shown| && raw[4][shown[a]] >= raw[4][j] &&
                              !IouBelow(boxes[shown[a]], boxes[j], p.iouThreshold))
            && (forall j: nat :: j in shown ==> raw[4][j] > p.scoreThreshold)
  {
    ShownSeparate(AllBoxes(raw, n), raw[4], p.iouThreshold, p.scoreThreshold);
  }

  /** Decoding is the box with the predicted centre and size; its corners are in order exactly when
      the size is not negative. */
  lemma DecodedBox(d: seq<real>, b: Box)
    requires |d| == ROWS
    ensures b == BoxOf(d) <==>
              && (b.x0 + b.x1) / 2.0 == d[0] && (b.y0 + b.y1) / 2.0 == d[1]
              && b.x1 - b.x0 == d[2] && b.y1 - b.y0 == d[3]
    ensures Proper(BoxOf(d)) <==> d[2] >= 0.0 && d[3] >= 0.0
  {
  }
}
