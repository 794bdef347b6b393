/** `min`, `max` and `sum` of a list of reals, and the mean they give. */
module Statistics {

  function Sum(xs: seq<real>): real {
    if xs == [] then 0.0 else Sum(xs[..|xs| - 1]) + xs[|xs| - 1]
  }

  function Min(xs: seq<real>): (m: real)
    requires xs != []
    ensures m in xs && forall k :: 0 <= k < |xs| ==> m <= xs[k]
  {
    var n := |xs| - 1;
    if n == 0 then xs[0]
    else
      var m := Min(xs[..n]);
      assert xs == xs[..n] + [xs[n]];
      if xs[n] < m then xs[n] else m
  }

  function Max(xs: seq<real>): (m: real)
    requires xs != []
    ensures m in xs && forall k :: 0 <= k < |xs| ==> xs[k] <= m
  {
    var n := |xs| - 1;
    if n == 0 then xs[0]
    else
      var m := Max(xs[..n]);
      assert xs == xs[..n] + [xs[n]];
      if m < xs[n] then xs[n] else m
  }

  function Mean(xs: seq<real>): real
    requires xs != []
  {
    Sum(xs) / |xs| as real
  }

  lemma {:induction false} SumBounds(xs: seq<real>, lo: real, hi: real)
    requires forall k :: 0 <= k < |xs| ==> lo <= xs[k] <= hi
    ensures lo * |xs| as real <= Sum(xs) <= hi * |xs| as real
  {
    if xs == [] {
    } else {
      var n := |xs| - 1;
      SumBounds(xs[..n], lo, hi);
      Distribute(lo, n);
      Distribute(hi, n);
    }
  }

  lemma Distribute(x: real, n: nat)
    ensures x * (n + 1) as real == x * n as real + x
  {
  }

  lemma Quotient(s: real, n: real, lo: real, hi: real)
    requires n > 0.0 && lo * n <= s <= hi * n
    ensures lo <= s / n <= hi
  {
    assert (s / n) * n == s;
  }

  lemma RatioBounds(o: real, u: real)
    requires 0.0 <= o <= u && u > 0.0
    ensures 0.0 <= o / u <= 1.0
    ensures o / u == 1.0 <==> o == u
  {
    assert (o / u) * u == o;
  }

  /** The mean lies between bounds of the values, so between the reported minimum and maximum. */
  lemma MeanBounds(xs: seq<real>, lo: real, hi: real)
    requires xs != [] && forall k :: 0 <= k < |xs| ==> lo <= xs[k] <= hi
    ensures lo <= Mean(xs) <= hi
  {
    SumBounds(xs, lo, hi);
    Quotient(Sum(xs), |xs| as real, lo, hi);
  }

  /** A line of a report. */
  datatype Row = Row(least: real, greatest: real, average: real)

  /** Least and greatest occur among the values, bound them all, and enclose the average. */
  function RowOf(xs: seq<real>): (r: Row)
    requires xs != []
    ensures r.least in xs && r.greatest in xs
    ensures forall k :: 0 <= k < |xs| ==> r.least <= xs[k] <= r.greatest
    ensures r.average == Mean(xs)
    ensures r.least <= r.average <= r.greatest
  {
    MeanBounds(xs, Min(xs), Max(xs));
    Row(Min(xs), Max(xs), Mean(xs))
  }
}
