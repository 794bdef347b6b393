/** Facts about quotients and remainders by a variable divisor. */
module Division {

  lemma MultipleBounds(d: int, n: nat)
    ensures d >= 1 ==> d * n >= n
    ensures d <= -1 ==> d * n <= 0 - n
  {
  }

  lemma QuotientUnique(n: nat, q: nat, r: nat)
    requires r < n
    ensures (q * n + r) / n == q && (q * n + r) % n == r
  {
    var m := q * n + r;
    assert m == (m / n) * n + m % n;
    MultipleBounds(m / n - q, n);
    assert (m / n - q) * n == r - m % n;
  }

  lemma MultipleMonotone(a: nat, b: nat, n: nat)
    ensures a <= b ==> a * n <= b * n
  {
  }

  /** The cell of a row-major grid of width `w` that position `i` holds. */
  lemma CellOf(i: nat, h: nat, w: nat)
    requires i < h * w
    ensures w > 0 && 0 <= i / w < h && 0 <= i % w < w && i == w * (i / w) + i % w
  {
    assert w > 0;
    var r := i % w;
    assert i == w * (i / w) + r;
  }
}
