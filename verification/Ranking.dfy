/** `argsort`: the positions of a score array in ascending order of score. It is taken to be
    stable, so equal scores keep their positions' order. */
module Ranking {
  import opened TensorOps

  /** Position `i` comes before position `j` in the ascending order. */
  predicate RankBelow(scores: seq<real>, i: nat, j: nat)
    requires i < |scores| && j < |scores|
  {
    scores[i] < scores[j] || (scores[i] == scores[j] && i < j)
  }

  ghost predicate Ranked(scores: seq<real>, order: seq<nat>) {
    && Indexes(order, |scores|)
    && forall a, b :: 0 <= a < b < |order| ==> RankBelow(scores, order[a], order[b])
  }

  function ArgSort(scores: seq<real>): (order: seq<nat>)
    ensures Ranked(scores, order)
    ensures forall i: nat :: i in order <==> i < |scores|
  {
    if scores == [] then []
    else
      var n := |scores| - 1;
      var rest := ArgSort(scores[..n]);
      RankedExtends(scores, n, rest);
      Insert(scores, rest, n)
  }

  /** In other words: by score, and equal scores by position. */
  lemma ArgSortAscends(scores: seq<real>, a: nat, b: nat)
    requires a < b < |ArgSort(scores)|
    ensures var i, j := ArgSort(scores)[a], ArgSort(scores)[b];
            && i < |scores| && j < |scores| && scores[i] <= scores[j]
            && (scores[i] == scores[j] ==> i < j)
  {
    assert RankBelow(scores, ArgSort(scores)[a], ArgSort(scores)[b]);
  }

  lemma RankedExtends(scores: seq<real>, n: nat, order: seq<nat>)
    requires n <= |scores| && Ranked(scores[..n], order)
    ensures Ranked(scores, order)
  {
    forall a, b | 0 <= a < b < |order| ensures RankBelow(scores, order[a], order[b]) {
      assert RankBelow(scores[..n], order[a], order[b]);
    }
  }

  /** Inserts position `x`, larger than every position present, after the scores it ties with. */
  function Insert(scores: seq<real>, order: seq<nat>, x: nat): (r: seq<nat>)
    requires Ranked(scores, order) && x < |scores|
    requires forall k :: 0 <= k < |order| ==> order[k] < x
    ensures Ranked(scores, r)
    ensures forall i: nat :: i in r <==> i in order || i == x
  {
    if order == [] then [x]
    else
      var n := |order| - 1;
      assert order == order[..n] + [order[n]];
      if scores[order[n]] <= scores[x] then order + [x]
      else
        var r := Insert(scores, order[..n], x);
        RankedSnoc(scores, r, order[n]);
        r + [order[n]]
  }

  lemma RankedSnoc(scores: seq<real>, order: seq<nat>, top: nat)
    requires Ranked(scores, order) && top < |scores|
    requires forall i: nat :: i in order ==> i < |scores| && RankBelow(scores, i, top)
    ensures Ranked(scores, order + [top])
  {
    assert forall k :: 0 <= k < |order| ==> order[k] in order;
  }

  lemma TopRankUnique(scores: seq<real>, s: seq<nat>, t: seq<nat>)
    requires Ranked(scores, s) && Ranked(scores, t) && s != [] && t != []
    requires s[|s| - 1] in t && t[|t| - 1] in s
    ensures s[|s| - 1] == t[|t| - 1]
  {
    var i :| 0 <= i < |t| && t[i] == s[|s| - 1];
    var j :| 0 <= j < |s| && s[j] == t[|t| - 1];
  }

  lemma RankedPrefix(scores: seq<real>, s: seq<nat>)
    requires Ranked(scores, s) && s != []
    ensures Ranked(scores, s[..|s| - 1])
    ensures forall i: nat :: i in s[..|s| - 1] <==> i in s && i != s[|s| - 1]
  {
    var n := |s| - 1;
    assert s == s[..n] + [s[n]];
    forall k | 0 <= k < n ensures s[k] != s[n] {
      assert RankBelow(scores, s[k], s[n]);
    }
  }

  /** There is one ranked arrangement of a set of positions. */
  lemma {:induction false} RankedUnique(scores: seq<real>, s: seq<nat>, t: seq<nat>)
    requires Ranked(scores, s) && Ranked(scores, t)
    requires forall i: nat :: i in s <==> i in t
    ensures s == t
  {
    if s == [] {
      FirstIsMember(t);
    } else {
      FirstIsMember(s);
      var m, n := |s| - 1, |t| - 1;
      assert s[m] in s && t[n] in t;
      TopRankUnique(scores, s, t);
      RankedPrefix(scores, s);
      RankedPrefix(scores, t);
      forall i: nat ensures i in s[..m] <==> i in t[..n] {
        assert i in s[..m] <==> i in s && i != s[m];
      }
      RankedUnique(scores, s[..m], t[..n]);
      assert s == s[..m] + [s[m]] && t == t[..n] + [t[n]];
    }
  }
}
