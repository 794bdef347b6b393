/** Laws of suppression that callers rely on: it commutes with score filtering, it is idempotent,
    and its behaviour at extreme thresholds. */
module SuppressionLaws {
  import opened TensorOps
  import opened Boxes
  import opened Ranking
  import opened Suppression

  // ----- filtering by score

  function AboveMask(scores: seq<real>, s: real): (m: seq<bool>)
    ensures |m| == |scores|
  {
    seq(|scores|, i requires 0 <= i < |scores| => scores[i] > s)
  }

  /** The positions of the scores above `s`, ascending. */
  function Above(scores: seq<real>, s: real): (r: seq<nat>)
    ensures Indexes(r, |scores|)
    ensures forall a, b :: 0 <= a < b < |r| ==> r[a] < r[b]
    ensures forall i: nat :: i in r <==> i < |scores| && scores[i] > s
  {
    Where(AboveMask(scores, s))
  }

  /** The members of `r` with a score above `s`, in `r`'s order. */
  function OnlyAbove(scores: seq<real>, s: real, r: seq<nat>): (o: seq<nat>)
    requires Indexes(r, |scores|)
    ensures Indexes(o, |scores|)
  {
    if r == [] then []
    else
      var n := |r| - 1;
      OnlyAbove(scores, s, r[..n]) + if scores[r[n]] > s then [r[n]] else []
  }

  lemma {:induction false} OnlyAboveDescends(scores: seq<real>, s: real, r: seq<nat>)
    requires Descending(scores, r)
    ensures var o := OnlyAbove(scores, s, r);
            && Descending(scores, o)
            && forall i: nat :: i in o <==> i in r && scores[i] > s
  {
    if r == [] {
    } else {
      var n := |r| - 1;
      assert r == r[..n] + [r[n]];
      OnlyAboveDescends(scores, s, r[..n]);
      if scores[r[n]] > s { DescendingSnoc(scores, OnlyAbove(scores, s, r[..n]), r); }
    }
  }

  /** The last of a descending sequence may follow any descending choice from those before it. */
  lemma DescendingSnoc(scores: seq<real>, o: seq<nat>, r: seq<nat>)
    requires Descending(scores, r) && r != [] && Descending(scores, o)
    requires forall i: nat :: i in o ==> i in r[..|r| - 1]
    ensures Descending(scores, o + [r[|r| - 1]])
  {
    var n := |r| - 1;
    forall k | 0 <= k < |o| ensures RankBelow(scores, r[n], o[k]) {
      assert o[k] in o;
    }
  }

  lemma KernelAbove(boxes: seq<Box>, scores: seq<real>, t: real, s: real, kept: set<nat>)
    requires |boxes| == |scores|
    requires IsKernel(boxes, scores, t, Positions(|boxes|), kept)
    ensures IsKernel(boxes, scores, t, Members(Above(scores, s)), kept * Members(Above(scores, s)))
  {
    var above := Members(Above(scores, s));
    forall i | i in above && i !in kept * above
      ensures exists j :: j in kept * above && Beats(boxes, scores, t, j, i)
    {
      var j :| j in kept && Beats(boxes, scores, t, j, i);
      assert j in kept * above;
    }
  }

  lemma GatherRanks(scores: seq<real>, idx: seq<nat>, a: nat, b: nat)
    requires Indexes(idx, |scores|) && a < |idx| && b < |idx|
    requires forall a, b :: 0 <= a < b < |idx| ==> idx[a] < idx[b]
    ensures RankBelow(Gather(scores, idx), a, b) <==> RankBelow(scores, idx[a], idx[b])
  {
    assert a < b <==> idx[a] < idx[b];
  }

  lemma GatherBeats(boxes: seq<Box>, scores: seq<real>, t: real, idx: seq<nat>, a: nat, b: nat)
    requires |boxes| == |scores| && Indexes(idx, |scores|) && a < |idx| && b < |idx|
    requires forall a, b :: 0 <= a < b < |idx| ==> idx[a] < idx[b]
    ensures Beats(Gather(boxes, idx), Gather(scores, idx), t, b, a) <==> Beats(boxes, scores, t, idx[b], idx[a])
  {
    GatherRanks(scores, idx, a, b);
  }

  lemma GatheredMember(idx: seq<nat>, r: seq<nat>, a: nat)
    requires Indexes(r, |idx|) && a < |idx|
    requires forall a, b :: 0 <= a < b < |idx| ==> idx[a] < idx[b]
    ensures a in Members(r) <==> idx[a] in Members(Gather(idx, r))
  {
    if a in r {
      var c :| 0 <= c < |r| && r[c] == a;
      assert Gather(idx, r)[c] == idx[a];
    }
    if idx[a] in Gather(idx, r) {
      var c :| 0 <= c < |r| && Gather(idx, r)[c] == idx[a];
      assert r[c] == a;
    }
  }

  lemma KernelOfGathered(boxes: seq<Box>, scores: seq<real>, t: real, idx: seq<nat>, r: seq<nat>)
    requires |boxes| == |scores| && Indexes(idx, |scores|) && Indexes(r, |idx|)
    requires forall a, b :: 0 <= a < b < |idx| ==> idx[a] < idx[b]
    requires IsKernel(Gather(boxes, idx), Gather(scores, idx), t, Positions(|idx|), Members(r))
    ensures IsKernel(boxes, scores, t, Members(idx), Members(Gather(idx, r)))
  {
    var kept := Members(Gather(idx, r));
    forall i, j | i in kept && j in kept ensures !Beats(boxes, scores, t, j, i) {
      var a :| 0 <= a < |idx| && idx[a] == i;
      var b :| 0 <= b < |idx| && idx[b] == j;
      GatheredMember(idx, r, a);
      GatheredMember(idx, r, b);
      GatherBeats(boxes, scores, t, idx, a, b);
    }
    forall i | i in Members(idx) && i !in kept
      ensures exists j :: j in kept && Beats(boxes, scores, t, j, i)
    {
      var a :| 0 <= a < |idx| && idx[a] == i;
      GatheredMember(idx, r, a);
      BeatenGathered(boxes, scores, t, idx, r, a);
    }
  }

  lemma BeatenGathered(boxes: seq<Box>, scores: seq<real>, t: real, idx: seq<nat>, r: seq<nat>, a: nat)
    requires |boxes| == |scores| && Indexes(idx, |scores|) && Indexes(r, |idx|)
    requires forall a, b :: 0 <= a < b < |idx| ==> idx[a] < idx[b]
    requires IsKernel(Gather(boxes, idx), Gather(scores, idx), t, Positions(|idx|), Members(r))
    requires a < |idx| && a !in Members(r)
    ensures exists j :: j in Members(Gather(idx, r)) && Beats(boxes, scores, t, j, idx[a])
  {
    var b :| b in Members(r) && Beats(Gather(boxes, idx), Gather(scores, idx), t, b, a);
    GatheredMember(idx, r, b);
    GatherBeats(boxes, scores, t, idx, a, b);
  }

  lemma GatheredDescends(scores: seq<real>, idx: seq<nat>, r: seq<nat>)
    requires Indexes(idx, |scores|) && Descending(Gather(scores, idx), r)
    requires forall a, b :: 0 <= a < b < |idx| ==> idx[a] < idx[b]
    ensures Descending(scores, Gather(idx, r))
  {
    forall a, b | 0 <= a < b < |r|
      ensures RankBelow(scores, Gather(idx, r)[b], Gather(idx, r)[a])
    {
      GatherRanks(scores, idx, r[b], r[a]);
    }
  }

  lemma AboveRanked(scores: seq<real>, s: real)
    ensures exists order :: Ranked(scores, order) && Members(order) == Members(Above(scores, s))
  {
    var all := ArgSort(scores);
    ReversedMembers(all);
    var down := Reversed(all);
    assert Descending(scores, down);
    OnlyAboveDescends(scores, s, down);
    var order := Reversed(OnlyAbove(scores, s, down));
    ReversedMembers(OnlyAbove(scores, s, down));
    assert Members(order) == Members(Above(scores, s));
    assert Ranked(scores, order);
  }

  /** Suppressing what passes the score filter gives the same detections, in the same order, as
      filtering the result of suppressing everything. */
  lemma FilterCommutes(boxes: seq<Box>, scores: seq<real>, t: real, s: real)
    requires |boxes| == |scores|
    ensures var idx := Above(scores, s);
            Gather(idx, Keep(Gather(boxes, idx), Gather(scores, idx), t)) ==
            OnlyAbove(scores, s, Keep(boxes, scores, t))
  {
    var idx := Above(scores, s);
    var inner := Keep(Gather(boxes, idx), Gather(scores, idx), t);
    var outer := Keep(boxes, scores, t);
    KeepIsTheKernel(Gather(boxes, idx), Gather(scores, idx), t, inner);
    KernelOfGathered(boxes, scores, t, idx, inner);
    GatheredDescends(scores, idx, inner);
    KeepIsTheKernel(boxes, scores, t, outer);
    KernelAbove(boxes, scores, t, s, Members(outer));
    OnlyAboveDescends(scores, s, outer);
    var filtered := OnlyAbove(scores, s, outer);
    assert Members(filtered) == Members(outer) * Members(idx);
    AboveRanked(scores, s);
    var order :| Ranked(scores, order) && Members(order) == Members(idx);
    KernelUnique(boxes, scores, t, order, Members(Gather(idx, inner)), Members(filtered));
    DescendingUnique(scores, Gather(idx, inner), filtered);
  }

  // ----- idempotence

  ghost function Identity(n: nat): seq<nat> { seq(n, i requires 0 <= i < n => i) }

  /** Suppressing the kept detections again keeps all of them, and keeps their order exactly when
      no two kept scores are equal: tied detections come out in reverse. */
  lemma KeepIdempotent(boxes: seq<Box>, scores: seq<real>, t: real)
    requires |boxes| == |scores|
    ensures var r := Keep(boxes, scores, t);
            var again := Keep(Gather(boxes, r), Gather(scores, r), t);
            && Members(again) == Positions(|r|)
            && (again == Identity(|r|) <==>
                forall a, b :: 0 <= a < b < |r| ==> scores[r[a]] != scores[r[b]])
  {
    var r := Keep(boxes, scores, t);
    var bs, ss := Gather(boxes, r), Gather(scores, r);
    var again := Keep(bs, ss, t);
    KeepIsTheKernel(boxes, scores, t, r);
    KeepIsTheKernel(bs, ss, t, again);
    KeptNeverConflict(boxes, scores, t, r);
    AllKept(bs, ss, t, again);
    IdentityDescends(scores, r);
    if Descending(ss, Identity(|r|)) {
      DescendingUnique(ss, again, Identity(|r|));
    }
  }

  lemma IdentityDescends(scores: seq<real>, r: seq<nat>)
    requires Descending(scores, r)
    ensures Members(Identity(|r|)) == Positions(|r|)
    ensures Descending(Gather(scores, r), Identity(|r|)) <==>
            forall a, b :: 0 <= a < b < |r| ==> scores[r[a]] != scores[r[b]]
  {
    var id, ss := Identity(|r|), Gather(scores, r);
    forall i | i in Positions(|r|) ensures i in Members(id) {
      assert id[i] == i;
    }
    forall a, b | 0 <= a < b < |r|
      ensures RankBelow(ss, id[b], id[a]) <==> scores[r[a]] != scores[r[b]]
    {
      assert RankBelow(scores, r[b], r[a]);
    }
  }

  /** Two boxes that both stay, with one score, come out in the other order every time. */
  lemma TiedPairReverses(boxes: seq<Box>, scores: seq<real>, t: real)
    requires |boxes| == |scores| == 2 && scores[0] == scores[1] && IouBelow(boxes[1], boxes[0], t)
    ensures var r := Keep(boxes, scores, t);
            r == [1, 0] && Keep(Gather(boxes, r), Gather(scores, r), t) != Identity(2)
  {
    KeptPair(boxes, scores, t);
    KeepIdempotent(boxes, scores, t);
    var r := Keep(boxes, scores, t);
    assert scores[r[0]] == scores[r[1]];
  }

  /** Such a pair: two distant points with score 1. */
  lemma TiedPairExists()
    ensures var boxes := [Box(9.0, 9.0, 9.0, 9.0), Box(0.0, 0.0, 0.0, 0.0)];
            var r := Keep(boxes, [1.0, 1.0], 0.5);
            r == [1, 0] && Keep(Gather(boxes, r), Gather([1.0, 1.0], r), 0.5) != Identity(2)
  {
    var a, b := Box(9.0, 9.0, 9.0, 9.0), Box(0.0, 0.0, 0.0, 0.0);
    assert OverlapWidth(b, a) == 0.0 && Width(a) == 1.0 && Height(a) == 1.0 && Width(b) == 1.0 && Height(b) == 1.0;
    assert Overlap(b, a) == 0.0 && Union(b, a) == 2.0;
    assert IouBelow(b, a, 0.5);
    TiedPairReverses([a, b], [1.0, 1.0], 0.5);
  }

  lemma KeptPair(boxes: seq<Box>, scores: seq<real>, t: real)
    requires |boxes| == |scores| == 2 && scores[0] == scores[1] && IouBelow(boxes[1], boxes[0], t)
    ensures Keep(boxes, scores, t) == [1, 0]
  {
    var r: seq<nat> := [1, 0];
    forall i: nat | i in Positions(2) ensures i in Members(r) {
      assert r[1 - i] == i;
    }
    assert Members(r) == Positions(2);
    assert !RankBelow(scores, 0, 0) && !RankBelow(scores, 1, 1) && !RankBelow(scores, 1, 0);
    KeepIsTheKernel(boxes, scores, t, r);
  }

  lemma KeptNeverConflict(boxes: seq<Box>, scores: seq<real>, t: real, r: seq<nat>)
    requires |boxes| == |scores| && r == Keep(boxes, scores, t)
    ensures forall a, b :: 0 <= a < |r| && 0 <= b < |r| && a != b ==> IouBelow(boxes[r[a]], boxes[r[b]], t)
  {
    KeepIsTheKernel(boxes, scores, t, r);
    forall a, b | 0 <= a < |r| && 0 <= b < |r| && a != b ensures IouBelow(boxes[r[a]], boxes[r[b]], t) {
      var lo, hi := if a < b then b else a, if a < b then a else b;
      assert RankBelow(scores, r[lo], r[hi]);
      assert r[lo] in Members(r) && r[hi] in Members(r);
      assert !Beats(boxes, scores, t, r[hi], r[lo]);
      IouBelowSymmetric(boxes[r[hi]], boxes[r[lo]], t);
    }
  }

  lemma AllKept(boxes: seq<Box>, scores: seq<real>, t: real, kept: seq<nat>)
    requires |boxes| == |scores| && IsKernel(boxes, scores, t, Positions(|boxes|), Members(kept))
    requires forall a, b :: 0 <= a < |boxes| && 0 <= b < |boxes| && a != b ==> IouBelow(boxes[a], boxes[b], t)
    ensures Members(kept) == Positions(|boxes|)
  {
    forall i, j | 0 <= i < |boxes| && 0 <= j < |boxes| ensures !Beats(boxes, scores, t, j, i) {
      assert i == j || IouBelow(boxes[j], boxes[i], t);
    }
    assert Positions(|boxes|) <= Members(kept);
  }

  // ----- extreme thresholds

  ghost predicate AllProper(boxes: seq<Box>) { forall i :: 0 <= i < |boxes| ==> Proper(boxes[i]) }

  /** What a caller that filters by score gets, on boxes of non-negative size: the kept detections
      score above `s`, descend in score, and overlap pairwise less than the threshold; and whatever
      else scores above `s` overlaps a kept one of at least its score by at least the threshold. */
  lemma KeptSeparated(boxes: seq<Box>, scores: seq<real>, t: real, s: real)
    requires |boxes| == |scores| && AllProper(boxes)
    ensures var shown := OnlyAbove(scores, s, Keep(boxes, scores, t));
            && (forall a, b :: 0 <= a < b < |shown| ==>
                  && scores[shown[a]] >= scores[shown[b]] > s
                  && shown[a] != shown[b]
                  && Iou(boxes[shown[a]], boxes[shown[b]]) < t)
            && (forall j: nat :: j < |scores| && scores[j] > s && j !in shown ==>
                  exists a :: 0 <= a < |shown| && scores[shown[a]] >= scores[j] &&
                              Iou(boxes[shown[a]], boxes[j]) >= t)
  {
    var all := Keep(boxes, scores, t);
    var shown := OnlyAbove(scores, s, all);
    KeepIsTheKernel(boxes, scores, t, all);
    OnlyAboveDescends(scores, s, all);
    forall a, b | 0 <= a < b < |shown|
      ensures scores[shown[a]] >= scores[shown[b]] > s && shown[a] != shown[b]
      ensures Iou(boxes[shown[a]], boxes[shown[b]]) < t
    {
      ShownApart(boxes, scores, t, Members(all), shown, a, b);
      assert shown[b] in shown;
    }
    forall j: nat | j < |scores| && scores[j] > s && j !in shown
      ensures exists a :: 0 <= a < |shown| && scores[shown[a]] >= scores[j] && Iou(boxes[shown[a]], boxes[j]) >= t
    {
      var i := KernelCovers(boxes, scores, t, Members(all), j);
      assert i in shown;
    }
  }

  /** The same for any boxes, by the threshold test alone. */
  lemma ShownSeparate(boxes: seq<Box>, scores: seq<real>, t: real, s: real)
    requires |boxes| == |scores|
    ensures var shown := OnlyAbove(scores, s, Keep(boxes, scores, t));
            && (forall a, b :: 0 <= a < b < |shown| ==>
                  && s < scores[shown[b]] <= scores[shown[a]]
                  && (scores[shown[b]] == scores[shown[a]] ==> shown[b] < shown[a])
                  && IouBelow(boxes[shown[a]], boxes[shown[b]], t))
            && (forall j: nat :: j < |scores| && scores[j] > s && j !in shown ==>
                  exists a :: 0 <= a < |shown| && scores[shown[a]] >= scores[j] &&
                              !IouBelow(boxes[shown[a]], boxes[j], t))
            && (forall j: nat :: j in shown ==> scores[j] > s)
  {
    var all := Keep(boxes, scores, t);
    var shown := OnlyAbove(scores, s, all);
    KeepIsTheKernel(boxes, scores, t, all);
    OnlyAboveDescends(scores, s, all);
    forall a, b | 0 <= a < b < |shown|
      ensures s < scores[shown[b]] <= scores[shown[a]]
      ensures scores[shown[b]] == scores[shown[a]] ==> shown[b] < shown[a]
      ensures IouBelow(boxes[shown[a]], boxes[shown[b]], t)
    {
      assert shown[b] in shown;
      PairSeparate(boxes, scores, t, Members(all), shown, a, b);
    }
    forall j: nat | j < |scores| && scores[j] > s && j !in shown
      ensures exists a :: 0 <= a < |shown| && scores[shown[a]] >= scores[j] &&
                          !IouBelow(boxes[shown[a]], boxes[j], t)
    {
      var i := BeatenBy(boxes, scores, t, Members(all), j);
      assert i in shown;
    }
  }

  lemma PairSeparate(boxes: seq<Box>, scores: seq<real>, t: real, kept: set<nat>, shown: seq<nat>, a: nat, b: nat)
    requires |boxes| == |scores| && IsKernel(boxes, scores, t, Positions(|boxes|), kept)
    requires Descending(scores, shown) && (forall i: nat :: i in shown ==> i in kept) && a < b < |shown|
    ensures scores[shown[b]] <= scores[shown[a]]
    ensures scores[shown[b]] == scores[shown[a]] ==> shown[b] < shown[a]
    ensures IouBelow(boxes[shown[a]], boxes[shown[b]], t)
  {
    assert RankBelow(scores, shown[b], shown[a]);
    assert shown[a] in shown && shown[b] in shown;
    assert !Beats(boxes, scores, t, shown[a], shown[b]);
  }

  lemma BeatenBy(boxes: seq<Box>, scores: seq<real>, t: real, kept: set<nat>, j: nat) returns (i: nat)
    requires |boxes| == |scores| && IsKernel(boxes, scores, t, Positions(|boxes|), kept)
    requires j < |boxes| && j !in kept
    ensures i in kept && i < |boxes| && scores[i] >= scores[j] && !IouBelow(boxes[i], boxes[j], t)
  {
    i :| i in kept && Beats(boxes, scores, t, i, j);
  }

  lemma ShownApart(boxes: seq<Box>, scores: seq<real>, t: real, kept: set<nat>, shown: seq<nat>, a: nat, b: nat)
    requires |boxes| == |scores| && AllProper(boxes) && IsKernel(boxes, scores, t, Positions(|boxes|), kept)
    requires Descending(scores, shown) && (forall i: nat :: i in shown ==> i in kept) && a < b < |shown|
    ensures scores[shown[a]] >= scores[shown[b]] && shown[a] != shown[b]
    ensures Iou(boxes[shown[a]], boxes[shown[b]]) < t
  {
    assert RankBelow(scores, shown[b], shown[a]);
    assert shown[a] in shown && shown[b] in shown;
    KernelSeparates(boxes, scores, t, kept, shown[a], shown[b]);
  }

  lemma KernelSeparates(boxes: seq<Box>, scores: seq<real>, t: real, kept: set<nat>, i: nat, j: nat)
    requires |boxes| == |scores| && AllProper(boxes) && i in kept && j in kept
    requires IsKernel(boxes, scores, t, Positions(|boxes|), kept)
    requires i < |boxes| && j < |boxes| && RankBelow(scores, j, i)
    ensures Iou(boxes[i], boxes[j]) < t
  {
    assert !Beats(boxes, scores, t, i, j);
    IouIsSimilarity(boxes[i], boxes[j]);
  }

  lemma KernelCovers(boxes: seq<Box>, scores: seq<real>, t: real, kept: set<nat>, j: nat) returns (i: nat)
    requires |boxes| == |scores| && AllProper(boxes) && j < |boxes| && j !in kept
    requires IsKernel(boxes, scores, t, Positions(|boxes|), kept)
    ensures i in kept && i < |boxes| && scores[i] >= scores[j] && Iou(boxes[i], boxes[j]) >= t
  {
    i :| i in kept && Beats(boxes, scores, t, i, j);
    IouIsSimilarity(boxes[i], boxes[j]);
  }

  /** A threshold above one suppresses nothing. */
  lemma HighThresholdKeepsAll(boxes: seq<Box>, scores: seq<real>, t: real)
    requires |boxes| == |scores| && AllProper(boxes) && t > 1.0
    ensures Members(Keep(boxes, scores, t)) == Positions(|boxes|)
  {
    forall a, b | 0 <= a < |boxes| && 0 <= b < |boxes| ensures IouBelow(boxes[a], boxes[b], t) {
      IouIsSimilarity(boxes[a], boxes[b]);
    }
    KeepIsTheKernel(boxes, scores, t, Keep(boxes, scores, t));
    AllKept(boxes, scores, t, Keep(boxes, scores, t));
  }

  /** A threshold of one suppresses exactly the repeats of a better ranked equal box. */
  lemma ThresholdOneDropsRepeats(boxes: seq<Box>, scores: seq<real>, i: nat)
    requires |boxes| == |scores| && AllProper(boxes) && i < |boxes|
    ensures i in Keep(boxes, scores, 1.0) <==>
            forall j :: 0 <= j < |boxes| && boxes[j] == boxes[i] ==> !RankBelow(scores, i, j)
  {
    var r := Keep(boxes, scores, 1.0);
    KeepIsTheKernel(boxes, scores, 1.0, r);
    forall a, b {:trigger Beats(boxes, scores, 1.0, b, a)} | 0 <= a < |boxes| && 0 <= b < |boxes|
      ensures Beats(boxes, scores, 1.0, b, a) <==> RankBelow(scores, a, b) && boxes[a] == boxes[b]
    {
      IouIsSimilarity(boxes[b], boxes[a]);
    }
    assert i in r <==> i in Members(r);
    if i in r {
      forall j: nat | j < |boxes| && boxes[j] == boxes[i] ensures !RankBelow(scores, i, j) {
        RepeatBeaten(boxes, scores, r, i, j);
      }
    } else {
      var j :| j in Members(r) && Beats(boxes, scores, 1.0, j, i);
      assert boxes[j] == boxes[i];
    }
  }

  lemma RepeatBeaten(boxes: seq<Box>, scores: seq<real>, r: seq<nat>, i: nat, j: nat)
    requires |boxes| == |scores| && IsKernel(boxes, scores, 1.0, Positions(|boxes|), Members(r))
    requires forall a: nat, b: nat {:trigger Beats(boxes, scores, 1.0, b, a)} | a < |boxes| && b < |boxes| ::
               Beats(boxes, scores, 1.0, b, a) <==> RankBelow(scores, a, b) && boxes[a] == boxes[b]
    requires i in Members(r) && j < |boxes| && boxes[j] == boxes[i]
    ensures !RankBelow(scores, i, j)
  {
    if j in Members(r) {
      assert !Beats(boxes, scores, 1.0, j, i);
    } else {
      var k :| k in Members(r) && Beats(boxes, scores, 1.0, k, j);
      assert !Beats(boxes, scores, 1.0, k, i);
    }
  }

  /** A threshold of zero or less keeps one detection, the best ranked. */
  lemma LowThresholdKeepsBest(boxes: seq<Box>, scores: seq<real>, t: real)
    requires |boxes| == |scores| > 0 && AllProper(boxes) && t <= 0.0
    ensures var order := ArgSort(scores);
            order != [] && Keep(boxes, scores, t) == [order[|order| - 1]]
  {
    var order := ArgSort(scores);
    assert 0 in order;
    var top := order[|order| - 1];
    forall i: nat | i < |boxes| && i != top ensures Beats(boxes, scores, t, top, i) {
      BeatenByTop(scores, order, i);
      IouIsSimilarity(boxes[top], boxes[i]);
    }
    TopIsKernel(boxes, scores, t, top);
    KeepIsTheKernel(boxes, scores, t, [top]);
  }

  lemma TopIsKernel(boxes: seq<Box>, scores: seq<real>, t: real, top: nat)
    requires |boxes| == |scores| && top < |boxes|
    requires forall i: nat :: i < |boxes| && i != top ==> Beats(boxes, scores, t, top, i)
    ensures IsKernel(boxes, scores, t, Positions(|boxes|), Members([top]))
  {
    assert Members([top]) == {top};
    assert !RankBelow(scores, top, top);
  }

  lemma BeatenByTop(scores: seq<real>, order: seq<nat>, i: nat)
    requires Ranked(scores, order) && i in order && i != order[|order| - 1]
    ensures RankBelow(scores, i, order[|order| - 1])
  {
    var a :| 0 <= a < |order| && order[a] == i;
  }
}
