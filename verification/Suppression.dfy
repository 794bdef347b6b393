/** Greedy non-max suppression: what it means, and why pruning a worklist in bulk computes it. */
module Suppression {
  import opened TensorOps
  import opened Boxes
  import opened Ranking

  // ----- the simple form: one candidate at a time, best first

  predicate Fits(boxes: seq<Box>, t: real, kept: seq<nat>, x: nat)
    requires Indexes(kept, |boxes|) && x < |boxes|
  {
    forall k :: 0 <= k < |kept| ==> IouBelow(boxes[kept[k]], boxes[x], t)
  }

  /** One step of the scan. */
  function Accept(boxes: seq<Box>, t: real, kept: seq<nat>, x: nat): (r: seq<nat>)
    requires Indexes(kept, |boxes|) && x < |boxes|
    ensures Indexes(r, |boxes|)
  {
    if Fits(boxes, t, kept, x) then kept + [x] else kept
  }

  /** Walks `pending` from its last, best candidate down, accepting the candidates that fit. */
  function Scan(boxes: seq<Box>, t: real, kept: seq<nat>, pending: seq<nat>): (r: seq<nat>)
    requires Indexes(kept, |boxes|) && Indexes(pending, |boxes|)
    ensures Indexes(r, |boxes|)
    decreases |pending|
  {
    if pending == [] then kept
    else
      var n := |pending| - 1;
      var x := pending[n];
      Scan(boxes, t, Accept(boxes, t, kept, x), pending[..n])
  }

  function Keep(boxes: seq<Box>, scores: seq<real>, t: real): (r: seq<nat>)
    requires |boxes| == |scores|
    ensures Indexes(r, |boxes|)
  {
    Scan(boxes, t, [], ArgSort(scores))
  }

  // ----- the fast form prunes everything that overlaps the newly kept box

  function BelowMask(boxes: seq<Box>, t: real, best: nat, pending: seq<nat>): (m: seq<bool>)
    requires best < |boxes| && Indexes(pending, |boxes|)
    ensures |m| == |pending|
  {
    seq(|pending|, k requires 0 <= k < |pending| => IouBelow(boxes[best], boxes[pending[k]], t))
  }

  /** `indices[where(iou < threshold)]`. */
  function Prune(boxes: seq<Box>, t: real, best: nat, pending: seq<nat>): (r: seq<nat>)
    requires best < |boxes| && Indexes(pending, |boxes|)
    ensures Indexes(r, |boxes|) && |r| <= |pending|
  {
    var left := Where(BelowMask(boxes, t, best, pending));
    AscendingLength(left, |pending|);
    Gather(pending, left)
  }

  lemma {:induction false} AscendingLength(s: seq<nat>, n: nat)
    requires Indexes(s, n) && forall a, b :: 0 <= a < b < |s| ==> s[a] < s[b]
    ensures |s| <= n
  {
    if s == [] {
    } else {
      AscendingLength(s[..|s| - 1], s[|s| - 1]);
    }
  }

  lemma PruneSnoc(boxes: seq<Box>, t: real, best: nat, rest: seq<nat>, x: nat)
    requires best < |boxes| && Indexes(rest, |boxes|) && x < |boxes|
    ensures Indexes(rest + [x], |boxes|)
    ensures Prune(boxes, t, best, rest + [x]) ==
            Prune(boxes, t, best, rest) + (if IouBelow(boxes[best], boxes[x], t) then [x] else [])
  {
    var mask := BelowMask(boxes, t, best, rest + [x]);
    assert mask[..|rest|] == BelowMask(boxes, t, best, rest);
    assert (rest + [x])[..|rest|] == rest;
    MaskedIsGather(rest + [x], mask);
    MaskedIsGather(rest, mask[..|rest|]);
  }

  /** A pruned candidate would not have been accepted later: the scan may skip it. */
  lemma {:induction false} PruningRefinesScan(boxes: seq<Box>, t: real, kept: seq<nat>, best: nat, pending: seq<nat>)
    requires Indexes(kept, |boxes|) && Indexes(pending, |boxes|) && best in kept && best < |boxes|
    ensures Scan(boxes, t, kept, pending) == Scan(boxes, t, kept, Prune(boxes, t, best, pending))
    decreases |pending|
  {
    if pending == [] {
    } else {
      var n := |pending| - 1;
      var x, rest := pending[n], pending[..n];
      assert pending == rest + [x];
      var kept' := Accept(boxes, t, kept, x);
      PruningRefinesScan(boxes, t, kept', best, rest);
      var s := Prune(boxes, t, best, rest);
      PruneSnoc(boxes, t, best, rest, x);
      ScanSnoc(boxes, t, kept, rest, x);
      if IouBelow(boxes[best], boxes[x], t) {
        ScanSnoc(boxes, t, kept, s, x);
      } else {
        assert !Fits(boxes, t, kept, x);
        assert s + [] == s;
      }
    }
  }

  lemma ScanSnoc(boxes: seq<Box>, t: real, kept: seq<nat>, rest: seq<nat>, x: nat)
    requires Indexes(kept, |boxes|) && Indexes(rest, |boxes|) && x < |boxes|
    ensures Indexes(rest + [x], |boxes|)
    ensures Scan(boxes, t, kept, rest + [x]) ==
            Scan(boxes, t, Accept(boxes, t, kept, x), rest)
  {
    assert (rest + [x])[..|rest|] == rest;
  }

  ghost predicate AllFit(boxes: seq<Box>, t: real, kept: seq<nat>, pending: seq<nat>)
    requires Indexes(kept, |boxes|)
  {
    Indexes(pending, |boxes|) && forall k :: 0 <= k < |pending| ==> Fits(boxes, t, kept, pending[k])
  }

  /** The loop's invariant: scanning what is left finishes the simple form's result. */
  ghost predicate Working(boxes: seq<Box>, scores: seq<real>, t: real, selected: seq<nat>, indices: seq<nat>) {
    && |boxes| == |scores|
    && Indexes(selected, |boxes|)
    && AllFit(boxes, t, selected, indices)
    && Scan(boxes, t, selected, indices) == Keep(boxes, scores, t)
  }

  /** One trip of the loop: select the last index, prune the others against it. */
  lemma PruneStep(boxes: seq<Box>, scores: seq<real>, t: real, selected: seq<nat>, others: seq<nat>, index: nat)
    requires Working(boxes, scores, t, selected, others + [index])
    ensures Indexes(others, |boxes|) && index < |boxes|
    ensures Working(boxes, scores, t, selected + [index], Prune(boxes, t, index, others))
  {
    var indices := others + [index];
    assert indices[|others|] == index && indices[..|others|] == others;
    assert Fits(boxes, t, selected, indices[|others|]);
    forall k | 0 <= k < |others| ensures Fits(boxes, t, selected, others[k]) {
      assert others[k] == indices[k];
    }
    ScanSnoc(boxes, t, selected, others, index);
    PruningRefinesScan(boxes, t, selected + [index], index, others);
    PrunedFit(boxes, t, selected, others, index);
  }

  lemma PrunedFit(boxes: seq<Box>, t: real, selected: seq<nat>, others: seq<nat>, index: nat)
    requires Indexes(selected, |boxes|) && AllFit(boxes, t, selected, others) && index < |boxes|
    ensures AllFit(boxes, t, selected + [index], Prune(boxes, t, index, others))
  {
    var left := Prune(boxes, t, index, others);
    var at := Where(BelowMask(boxes, t, index, others));
    forall k | 0 <= k < |left| ensures Fits(boxes, t, selected + [index], left[k]) {
      assert left[k] == others[at[k]];
    }
  }

  // ----- the independent definition: the kernel of an ordered conflict relation

  ghost function Members(s: seq<nat>): set<nat> { set i | i in s }
  ghost function Positions(n: nat): (r: set<nat>)
    ensures forall i: nat :: i in r <==> i < n
  {
    if n == 0 then {} else Positions(n - 1) + {n - 1}
  }

  ghost predicate Descending(scores: seq<real>, r: seq<nat>) {
    && Indexes(r, |scores|)
    && forall a, b :: 0 <= a < b < |r| ==> RankBelow(scores, r[b], r[a])
  }

  /** Position `i` is suppressed by the better ranked position `j`. */
  predicate Beats(boxes: seq<Box>, scores: seq<real>, t: real, j: nat, i: nat)
    requires |boxes| == |scores| && i < |boxes| && j < |boxes|
  {
    RankBelow(scores, i, j) && !IouBelow(boxes[j], boxes[i], t)
  }

  /** No member of `kept` beats another, and everything of `all` left out is beaten by a member. */
  ghost predicate IsKernel(boxes: seq<Box>, scores: seq<real>, t: real, all: set<nat>, kept: set<nat>)
    requires |boxes| == |scores|
  {
    && kept <= all <= Positions(|boxes|)
    && (forall i, j :: i in kept && j in kept ==> !Beats(boxes, scores, t, j, i))
    && (forall i :: i in all && i !in kept ==> exists j :: j in kept && Beats(boxes, scores, t, j, i))
  }

  lemma {:induction false} KernelsAgree(boxes: seq<Box>, scores: seq<real>, t: real, order: seq<nat>,
                                        k: set<nat>, l: set<nat>, a: nat)
    requires |boxes| == |scores| && Ranked(scores, order) && a < |order|
    requires IsKernel(boxes, scores, t, Members(order), k) && IsKernel(boxes, scores, t, Members(order), l)
    ensures order[a] in k <==> order[a] in l
    decreases |order| - a
  {
    forall b | a < b < |order| ensures order[b] in k <==> order[b] in l {
      KernelsAgree(boxes, scores, t, order, k, l, b);
    }
    BeatenFromAbove(boxes, scores, t, order, a);
    assert order[a] in Members(order);
  }

  lemma BeatenFromAbove(boxes: seq<Box>, scores: seq<real>, t: real, order: seq<nat>, a: nat)
    requires |boxes| == |scores| && Ranked(scores, order) && a < |order|
    ensures forall j :: j in order && Beats(boxes, scores, t, j, order[a]) ==>
              exists b :: a < b < |order| && order[b] == j
  {
    forall j | j in order && Beats(boxes, scores, t, j, order[a])
      ensures exists b :: a < b < |order| && order[b] == j
    {
      var b :| 0 <= b < |order| && order[b] == j;
    }
  }

  /** The kept set is unique. */
  lemma KernelUnique(boxes: seq<Box>, scores: seq<real>, t: real, order: seq<nat>, k: set<nat>, l: set<nat>)
    requires |boxes| == |scores| && Ranked(scores, order)
    requires IsKernel(boxes, scores, t, Members(order), k) && IsKernel(boxes, scores, t, Members(order), l)
    ensures k == l
  {
    forall i | i in order ensures i in k <==> i in l {
      var a :| 0 <= a < |order| && order[a] == i;
      KernelsAgree(boxes, scores, t, order, k, l, a);
    }
  }

  // ----- the scan computes the kernel, best first

  lemma {:induction false} ScanFront(boxes: seq<Box>, t: real, kept: seq<nat>, x: nat, rest: seq<nat>)
    requires Indexes(kept, |boxes|) && Indexes(rest, |boxes|) && x < |boxes|
    ensures Indexes([x] + rest, |boxes|)
    ensures Scan(boxes, t, kept, [x] + rest) == Accept(boxes, t, Scan(boxes, t, kept, rest), x)
    decreases |rest|
  {
    if rest == [] {
      assert [x] + rest == [] + [x];
      ScanSnoc(boxes, t, kept, [], x);
    } else {
      var n := |rest| - 1;
      var y, rest' := rest[n], rest[..n];
      var kept' := Accept(boxes, t, kept, y);
      ScanFront(boxes, t, kept', x, rest');
      SplitLast(rest);
      ConcatAssociates([x], rest', [y]);
      ScanSnoc(boxes, t, kept, rest', y);
      ScanSnoc(boxes, t, kept, [x] + rest', y);
    }
  }

  lemma {:induction false} ScanIsKernel(boxes: seq<Box>, scores: seq<real>, t: real, order: seq<nat>)
    requires |boxes| == |scores| && Ranked(scores, order)
    ensures var r := Scan(boxes, t, [], order);
            Descending(scores, r) && IsKernel(boxes, scores, t, Members(order), Members(r))
    decreases |order|
  {
    if order == [] {
    } else {
      var x, rest := order[0], order[1..];
      assert order == [x] + rest;
      forall k | 0 <= k < |rest| ensures RankBelow(scores, x, rest[k]) {
        assert rest[k] == order[k + 1];
      }
      ScanIsKernel(boxes, scores, t, rest);
      ScanFront(boxes, t, [], x, rest);
      KernelStep(boxes, scores, t, rest, Scan(boxes, t, [], rest), x);
    }
  }

  lemma KernelStep(boxes: seq<Box>, scores: seq<real>, t: real, rest: seq<nat>, r: seq<nat>, x: nat)
    requires |boxes| == |scores| && Indexes(rest, |boxes|) && x < |boxes|
    requires forall k :: 0 <= k < |rest| ==> RankBelow(scores, x, rest[k])
    requires Descending(scores, r) && IsKernel(boxes, scores, t, Members(rest), Members(r))
    ensures var r' := Accept(boxes, t, r, x);
            Descending(scores, r') && IsKernel(boxes, scores, t, Members([x] + rest), Members(r'))
  {
    forall k | 0 <= k < |r| ensures RankBelow(scores, x, r[k]) {
      assert r[k] in Members(r);
    }
    assert Members([x] + rest) == {x} + Members(rest);
    assert Members(r + [x]) == {x} + Members(r);
    if !Fits(boxes, t, r, x) {
      var k :| 0 <= k < |r| && !IouBelow(boxes[r[k]], boxes[x], t);
      assert r[k] in Members(r) && Beats(boxes, scores, t, r[k], x);
    }
  }

  ghost function Reversed(s: seq<nat>): seq<nat> {
    seq(|s|, k requires 0 <= k < |s| => s[|s| - 1 - k])
  }

  lemma DescendingUnique(scores: seq<real>, r: seq<nat>, s: seq<nat>)
    requires Descending(scores, r) && Descending(scores, s) && Members(r) == Members(s)
    ensures r == s
  {
    ReversedMembers(r);
    ReversedMembers(s);
    forall i: nat ensures i in Reversed(r) <==> i in Reversed(s) {
      assert i in Members(r) <==> i in Members(s);
    }
    RankedUnique(scores, Reversed(r), Reversed(s));
    ReversedTwice(r);
    ReversedTwice(s);
  }

  lemma ReversedMembers(s: seq<nat>)
    ensures forall i: nat :: i in Reversed(s) <==> i in s
  {
    forall i: nat | i in s ensures i in Reversed(s) {
      var k :| 0 <= k < |s| && s[k] == i;
      assert Reversed(s)[|s| - 1 - k] == i;
    }
  }

  lemma ReversedTwice(s: seq<nat>)
    ensures Reversed(Reversed(s)) == s
  {
  }

  lemma ArgSortMembers(scores: seq<real>)
    ensures Members(ArgSort(scores)) == Positions(|scores|)
  {
  }

  /** Main result: the output is the one sequence that lists the kernel in descending rank order.
      It has no duplicates, non-increasing scores, pairwise overlap below the threshold, and a
      better ranked kept member over the threshold for every rejected detection. */
  lemma KeepIsTheKernel(boxes: seq<Box>, scores: seq<real>, t: real, r: seq<nat>)
    requires |boxes| == |scores|
    ensures r == Keep(boxes, scores, t) <==>
            Descending(scores, r) && IsKernel(boxes, scores, t, Positions(|boxes|), Members(r))
  {
    var order := ArgSort(scores);
    var keep := Keep(boxes, scores, t);
    ArgSortMembers(scores);
    ScanIsKernel(boxes, scores, t, order);
    if Descending(scores, r) && IsKernel(boxes, scores, t, Positions(|boxes|), Members(r)) {
      KernelUnique(boxes, scores, t, order, Members(r), Members(keep));
      DescendingUnique(scores, r, keep);
    }
  }

  lemma KeepNonEmpty(boxes: seq<Box>, scores: seq<real>, t: real)
    requires |boxes| == |scores|
    ensures boxes != [] ==> Keep(boxes, scores, t) != []
  {
    KeepIsTheKernel(boxes, scores, t, Keep(boxes, scores, t));
    assert boxes == [] || 0 in Positions(|boxes|);
  }
}
