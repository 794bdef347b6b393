/** The multi-camera viewer: how many rows and columns, and where each camera's tile goes. */
module MultiViewer {
  import opened Options
  import opened Division

  function CeilDiv(a: nat, b: nat): nat
    requires b > 0
  {
    (a + b - 1) / b
  }

  lemma CeilDivBounds(a: nat, b: nat)
    requires b > 0
    ensures var c := CeilDiv(a, b); b * c >= a && (a > 0 ==> c > 0 && b * (c - 1) < a)
  {
    var n := a + b - 1;
    assert n == b * (n / b) + n % b;
  }

  lemma CeilDivUnique(a: nat, b: nat, c: nat)
    requires b > 0 && c > 0 && b * c >= a && b * (c - 1) < a
    ensures CeilDiv(a, b) == c
  {
    CeilDivBounds(a, b);
    var d := CeilDiv(a, b);
    MultipleMonotone(d, c - 1, b);
    MultipleMonotone(c, d - 1, b);
  }

  /** `int(math.sqrt(n))`, exactly. */
  function IntegerSqrt(n: nat): nat {
    if n == 0 then 0
    else
      var r := IntegerSqrt(n - 1);
      if (r + 1) * (r + 1) <= n then r + 1 else r
  }

  lemma {:induction false} SqrtBounds(n: nat)
    ensures var r := IntegerSqrt(n); r * r <= n < (r + 1) * (r + 1)
  {
    if n == 0 {
    } else {
      SqrtBounds(n - 1);
      var r := IntegerSqrt(n - 1);
      assert (r + 2) * (r + 2) == (r + 1) * (r + 1) + 2 * r + 3;
    }
  }

  /** The grid is nearly square, holds all `n` tiles in row-major order, and wastes no whole row or
      column. */
  ghost predicate GoodGrid(n: nat, rows: nat, cols: nat) {
    && 0 < rows <= cols <= rows + 2
    && (rows - 1) * cols < n <= rows * cols
    && rows * (cols - 1) < n
  }

  /** As many rows as fit in a square: the columns match them for a square number of tiles, are one
      more for up to a row's worth of tiles beyond, and two more otherwise. */
  lemma NearSquareGrid(n: nat, r: nat)
    requires n > 0 && r * r <= n < (r + 1) * (r + 1)
    ensures r > 0 && GoodGrid(n, r, CeilDiv(n, r))
    ensures CeilDiv(n, r) == r <==> n == r * r
    ensures CeilDiv(n, r) == r + 1 <==> r * r < n <= r * (r + 1)
    ensures CeilDiv(n, r) == r + 2 <==> r * (r + 1) < n
  {
    assert r > 0;
    var k := n - r * r;
    assert (r + 1) * (r + 1) == r * r + 2 * r + 1;
    if k == 0 {
      CeilDivUnique(n, r, r);
      assert (r - 1) * r < n;
    } else if k <= r {
      assert r * (r + 1) == r * r + r;
      CeilDivUnique(n, r, r + 1);
      assert (r - 1) * (r + 1) == r * r - 1;
    } else {
      assert r * (r + 2) == r * r + 2 * r && r * (r + 1) == r * r + r;
      CeilDivUnique(n, r, r + 2);
      assert (r - 1) * (r + 2) == r * r + r - 2;
    }
  }

  datatype Layout = Layout(rows: nat, cols: nat, windowWidth: real, windowHeight: real)

  /** Fails for no tiles, where the square root or the final division raises. For any other count
      the rows are the integer square root: the loop that lowers them never runs a trip. */
  method GridDims(n: int) returns (l: Option<Layout>)
    ensures l.None? <==> n <= 0
    ensures l.Some? ==>
              && l.value.rows == IntegerSqrt(n)
              && GoodGrid(n, l.value.rows, l.value.cols)
              && l.value.windowWidth == 1.0
              && l.value.windowHeight * l.value.cols as real == l.value.rows as real
  {
    if n < 0 { return None; }
    var r := LowerRows(n);
    var c := Columns(n, r);
    if c == 0 { return None; }
    var factor := Quotient(r, c);
    l := Some(Layout(r, c, 1.0, factor));
  }

  method Columns(n: nat, r: nat) returns (c: nat)
    requires r == IntegerSqrt(n)
    ensures if n == 0 then c == 0 else c > 0 && GoodGrid(n, r, c)
  {
    ChosenGrid(n);
    c := if r > 0 then CeilDiv(n, r) else 0;
  }

  /** The loop: lowers the rows while they outnumber the columns. They never do. */
  method LowerRows(n: nat) returns (r: nat)
    ensures r == IntegerSqrt(n)
  {
    r := IntegerSqrt(n);
    ghost var root := r;
    while r > 0 && CeilDiv(n, r) < r
      invariant r != root ==> root > 0 && CeilDiv(n, root) < root
      decreases r
    {
      r := r - 1;
    }
    ChosenGrid(n);
  }

  lemma ChosenGrid(n: nat)
    ensures var r := IntegerSqrt(n); if n == 0 then r == 0 else r > 0 && GoodGrid(n, r, CeilDiv(n, r))
  {
    SqrtBounds(n);
    if n > 0 { NearSquareGrid(n, IntegerSqrt(n)); }
  }

  method Quotient(a: nat, b: nat) returns (q: real)
    requires b > 0
    ensures q * b as real == a as real
  {
    q := a as real / b as real;
  }

  // ----- tile placement

  datatype Tile = Tile(width: real, height: real, x: real, y: real)

  function Share(n: nat): real
    requires n > 0
  {
    1.0 / n as real
  }

  function Offset(n: nat, i: nat): real
    requires n > 0
  {
    Share(n) * i as real
  }

  /** The tile at a row and column of the grid. */
  function Slot(rows: nat, cols: nat, row: nat, col: nat): Tile
    requires rows > 0 && cols > 0
  {
    Tile(Share(cols), Share(rows), Offset(cols, col), Offset(rows, row))
  }

  /** Camera `i`'s tile. */
  function TileAt(rows: nat, cols: nat, i: nat): Tile
    requires rows > 0 && cols > 0
  {
    Slot(rows, cols, i / cols, i % cols)
  }

  /** Tiles fill the rows from the left and the rows from the top: tile `i` has `i % cols` tiles to its
      left and `i / cols` rows above it. */
  lemma TilePlace(rows: nat, cols: nat, i: nat)
    requires rows > 0 && cols > 0
    ensures var t := TileAt(rows, cols, i);
            && t.x * cols as real == (i % cols) as real && t.y * rows as real == (i / cols) as real
            && t.width * cols as real == 1.0 && t.height * rows as real == 1.0
  {
    OffsetTimes(cols, i % cols);
    OffsetTimes(rows, i / cols);
  }

  lemma OffsetTimes(n: nat, k: nat)
    requires n > 0
    ensures Share(n) * n as real == 1.0 && Offset(n, k) * n as real == k as real
  {
    Associate(Share(n), k as real, n as real);
  }

  /** Interval `i` of `n` equal parts of [0, 1]. */
  lemma PartInside(n: nat, i: nat)
    requires i < n
    ensures 0.0 <= Offset(n, i) && Offset(n, i) + Share(n) <= 1.0
  {
    PartsApart(n, i, n);
  }

  lemma PartsApart(n: nat, i: nat, j: nat)
    requires i < j <= n
    ensures 0.0 <= Offset(n, i) && Offset(n, i) + Share(n) <= Offset(n, j)
    ensures Offset(n, n) == 1.0
  {
    var w := Share(n);
    assert w * n as real == 1.0;
    Scale(w, (i + 1) as real, j as real);
    Scale(w, 0.0, i as real);
    assert w * (i + 1) as real == w * i as real + w;
  }

  lemma Scale(w: real, a: real, b: real)
    requires w > 0.0 && a <= b
    ensures w * a <= w * b
  {
  }

  predicate Apart(s: Tile, t: Tile) {
    s.x + s.width <= t.x || t.x + t.width <= s.x || s.y + s.height <= t.y || t.y + t.height <= s.y
  }

  /** The tiles of `n` cameras lie inside the unit square, do not overlap, and leave no row or
      column of the grid empty. */
  lemma TilesPartition(n: nat, rows: nat, cols: nat)
    requires GoodGrid(n, rows, cols)
    ensures forall i :: 0 <= i < n ==>
              var t := TileAt(rows, cols, i);
              0.0 <= t.x && t.x + t.width <= 1.0 && 0.0 <= t.y && t.y + t.height <= 1.0
    ensures forall i, j :: 0 <= i < j < n ==> Apart(TileAt(rows, cols, i), TileAt(rows, cols, j))
    ensures forall r: nat :: r < rows ==> RowUsed(n, cols, r)
    ensures forall c: nat :: c < cols ==> ColumnUsed(n, cols, c)
  {
    forall i | 0 <= i < n
      ensures var t := TileAt(rows, cols, i);
              0.0 <= t.x && t.x + t.width <= 1.0 && 0.0 <= t.y && t.y + t.height <= 1.0
    {
      CellOf(i, rows, cols);
      PartInside(cols, i % cols);
      PartInside(rows, i / cols);
    }
    forall i, j | 0 <= i < j < n ensures Apart(TileAt(rows, cols, i), TileAt(rows, cols, j)) {
      TilesApart(n, rows, cols, i, j);
    }
    forall r: nat | r < rows ensures RowUsed(n, cols, r) {
      FirstOfRow(n, rows, cols, r);
    }
    forall c: nat | c < cols ensures ColumnUsed(n, cols, c) {
      TopOfColumn(n, rows, cols, c);
    }
  }

  lemma SlotsApart(rows: nat, cols: nat, a: nat, b: nat, c: nat, d: nat)
    requires a < rows && c < rows && b < cols && d < cols && (a != c || b != d)
    ensures Apart(Slot(rows, cols, a, b), Slot(rows, cols, c, d))
  {
    if b < d {
      PartsApart(cols, b, d);
    } else if d < b {
      PartsApart(cols, d, b);
    } else if a < c {
      PartsApart(rows, a, c);
    } else {
      PartsApart(rows, c, a);
    }
  }

  lemma TilesApart(n: nat, rows: nat, cols: nat, i: nat, j: nat)
    requires GoodGrid(n, rows, cols) && i < j < n
    ensures Apart(TileAt(rows, cols, i), TileAt(rows, cols, j))
  {
    CellOf(i, rows, cols);
    CellOf(j, rows, cols);
    SlotsApart(rows, cols, i / cols, i % cols, j / cols, j % cols);
  }

  ghost predicate RowUsed(n: nat, cols: nat, r: nat)
    requires cols > 0
  {
    exists i :: 0 <= i < n && i / cols == r
  }

  ghost predicate ColumnUsed(n: nat, cols: nat, c: nat)
    requires cols > 0
  {
    exists i :: 0 <= i < n && i % cols == c
  }

  lemma FirstOfRow(n: nat, rows: nat, cols: nat, r: nat)
    requires GoodGrid(n, rows, cols) && r < rows
    ensures RowUsed(n, cols, r)
  {
    QuotientUnique(cols, r, 0);
    MultipleMonotone(r, rows - 1, cols);
    assert (r * cols + 0) / cols == r;
  }

  lemma TopOfColumn(n: nat, rows: nat, cols: nat, c: nat)
    requires GoodGrid(n, rows, cols) && c < cols
    ensures ColumnUsed(n, cols, c)
  {
    QuotientUnique(cols, 0, c);
    MultipleMonotone(1, rows, cols - 1);
    assert (0 * cols + c) % cols == c;
  }

  /** At the chosen window size every tile has the proportions of the screen: a `cols`-th of each
      of its sides. */
  lemma TileKeepsAspect(l: Layout, screenWidth: real, screenHeight: real, i: nat)
    requires l.rows > 0 && l.cols > 0 && l.windowWidth == 1.0
    requires l.windowHeight * l.cols as real == l.rows as real
    ensures var t := TileAt(l.rows, l.cols, i);
            && t.width * (screenWidth * l.windowWidth) == screenWidth / l.cols as real
            && t.height * (screenHeight * l.windowHeight) == screenHeight / l.cols as real
  {
    SlotAspect(l.rows, l.cols, i / l.cols, i % l.cols, l.windowHeight, screenWidth, screenHeight);
  }

  lemma SlotAspect(rows: nat, cols: nat, row: nat, col: nat, factor: real, sw: real, sh: real)
    requires rows > 0 && cols > 0 && factor * cols as real == rows as real
    ensures var t := Slot(rows, cols, row, col);
            t.width * (sw * 1.0) == sw / cols as real && t.height * (sh * factor) == sh / cols as real
  {
    Aspect(rows, cols, factor, sw, sh);
  }

  lemma Aspect(rows: nat, cols: nat, factor: real, sw: real, sh: real)
    requires rows > 0 && cols > 0 && factor * cols as real == rows as real
    ensures Share(cols) * sw == sw / cols as real && Share(rows) * (sh * factor) == sh / cols as real
  {
    var c, h := cols as real, Share(rows);
    DividedBy(Share(cols), c, sw);
    assert h * rows as real == 1.0;
    Associate(h, factor, c);
    DividedBy(h * factor, c, sh);
    Associate(h, factor, sh);
  }

  lemma Associate(a: real, b: real, c: real)
    ensures (a * b) * c == a * (b * c) == a * (c * b)
  {
  }

  lemma DividedBy(x: real, c: real, s: real)
    requires c != 0.0 && x * c == 1.0
    ensures x * s == s / c
  {
    assert x == 1.0 / c;
  }
}
