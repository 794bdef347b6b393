/** The array operations of numpy and cupy that the post-processors use, on sequences. */
module TensorOps {

  /** The true positions of a one-dimensional mask, ascending (`where` of a condition). */
  function Where(mask: seq<bool>): (r: seq<nat>)
    ensures forall k :: 0 <= k < |r| ==> r[k] < |mask| && mask[r[k]]
    ensures forall a, b :: 0 <= a < b < |r| ==> r[a] < r[b]
    ensures forall i :: 0 <= i < |mask| && mask[i] ==> i in r
  {
    if mask == [] then []
    else
      var n := |mask| - 1;
      var r := Where(mask[..n]);
      if mask[n] then r + [n] else r
  }

  ghost predicate Indexes(idx: seq<nat>, n: nat) {
    forall k :: 0 <= k < |idx| ==> idx[k] < n
  }

  lemma FirstIsMember<T>(s: seq<T>)
    ensures s == [] || s[0] in s
  {
  }

  lemma ConcatAssociates<T>(a: seq<T>, b: seq<T>, c: seq<T>)
    ensures a + (b + c) == (a + b) + c
  {
  }

  lemma SplitLast<T>(s: seq<T>)
    requires s != []
    ensures s == s[..|s| - 1] + [s[|s| - 1]]
  {
  }

  /** Indexing with an index array: `xs[idx]`. */
  function Gather<T>(xs: seq<T>, idx: seq<nat>): (r: seq<T>)
    requires Indexes(idx, |xs|)
    ensures |r| == |idx|
    ensures forall k :: 0 <= k < |idx| ==> r[k] == xs[idx[k]]
  {
    seq(|idx|, k requires 0 <= k < |idx| => xs[idx[k]])
  }

  lemma GatherSnoc<T>(xs: seq<T>, idx: seq<nat>, i: nat)
    requires Indexes(idx, |xs|) && i < |xs|
    ensures Indexes(idx + [i], |xs|) && Gather(xs, idx + [i]) == Gather(xs, idx) + [xs[i]]
  {
  }

  /** Indexing with a mask: `xs[mask]`. */
  function Masked<T>(xs: seq<T>, mask: seq<bool>): seq<T>
    requires |xs| == |mask|
  {
    if xs == [] then []
    else
      var n := |xs| - 1;
      Masked(xs[..n], mask[..n]) + if mask[n] then [xs[n]] else []
  }

  /** A mask selects the elements at its true positions, in order. */
  lemma {:induction false} MaskedIsGather<T>(xs: seq<T>, mask: seq<bool>)
    requires |xs| == |mask|
    ensures Masked(xs, mask) == Gather(xs, Where(mask))
  {
    if xs == [] {
    } else {
      MaskedIsGather(xs[..|xs| - 1], mask[..|xs| - 1]);
    }
  }

  /** Masking a concatenation masks the parts. */
  lemma {:induction false} MaskedConcat<T>(xs: seq<T>, xm: seq<bool>, ys: seq<T>, ym: seq<bool>)
    requires |xs| == |xm| && |ys| == |ym|
    ensures Masked(xs + ys, xm + ym) == Masked(xs, xm) + Masked(ys, ym)
    decreases |ys|
  {
    if ys == [] {
      assert xs + ys == xs && xm + ym == xm;
    } else {
      var n := |ys| - 1;
      assert (xs + ys)[..|xs| + n] == xs + ys[..n];
      assert (xm + ym)[..|xs| + n] == xm + ym[..n];
      MaskedConcat(xs, xm, ys[..n], ym[..n]);
    }
  }

  function Flatten<T>(rows: seq<seq<T>>): (r: seq<T>)
  {
    if rows == [] then [] else Flatten(rows[..|rows| - 1]) + rows[|rows| - 1]
  }

  lemma FlattenSnoc<T>(rows: seq<seq<T>>, row: seq<T>)
    ensures Flatten(rows + [row]) == Flatten(rows) + row
  {
    assert (rows + [row])[..|rows|] == rows;
  }

  /** Row-major order: element `j` of row `i` of a matrix of width `w` lands at `w * i + j`. */
  lemma {:induction false} FlattenAt<T>(rows: seq<seq<T>>, w: nat, i: nat, j: nat)
    requires forall k :: 0 <= k < |rows| ==> |rows[k]| == w
    requires i < |rows| && j < w
    ensures |Flatten(rows)| == w * |rows|
    ensures 0 <= w * i + j < w * |rows|
    ensures Flatten(rows)[w * i + j] == rows[i][j]
  {
    FlattenLength(rows, w);
    var n := |rows| - 1;
    FlattenLength(rows[..n], w);
    if i == n {
    } else {
      FlattenAt(rows[..n], w, i, j);
      assert w * n + w == w * |rows|;
    }
  }

  lemma {:induction false} FlattenLength<T>(rows: seq<seq<T>>, w: nat)
    requires forall k :: 0 <= k < |rows| ==> |rows[k]| == w
    ensures |Flatten(rows)| == w * |rows|
  {
    if rows == [] {
    } else {
      FlattenLength(rows[..|rows| - 1], w);
      assert w * (|rows| - 1) + w == w * |rows|;
    }
  }
}
