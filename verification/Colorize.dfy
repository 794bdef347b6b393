/** The colorizing GPU kernel: one thread per pixel, all threads on one flat buffer. */
module Colorize {
  import opened Division

  const WORD := 65536

  /** The launch parameters: `stride` pixels from row to row, three words a pixel. */
  datatype Image = Image(width: nat, height: nat, stride: nat, tint: seq<nat>, opacity: real) {
    ghost predicate Valid() {
      && width <= stride
      && |tint| == 3 && (forall c :: 0 <= c < 3 ==> tint[c] < 65536)
      && 0.0 <= opacity <= 1.0
    }
  }

  /** A thread's block and its place in the block. */
  datatype Thread = Thread(blockX: nat, blockY: nat, threadX: nat, threadY: nat) {
    function X(): nat { 32 * blockX + threadX }
    function Y(): nat { 8 * blockY + threadY }
  }

  /** The launched grid: blocks of 32 by 8 threads, rounded up. */
  predicate InGrid(img: Image, th: Thread) {
    th.blockX < (img.width + 31) / 32 && th.blockY < (img.height + 7) / 8 && th.threadX < 32 && th.threadY < 8
  }

  predicate OnImage(img: Image, th: Thread) {
    th.X() < img.width && th.Y() < img.height
  }

  function ThreadOf(x: nat, y: nat): Thread {
    Thread(x / 32, y / 8, x % 32, y % 8)
  }

  /** The rounded-up grid reaches every pixel exactly once. */
  lemma GridCoversPixels(img: Image, x: nat, y: nat)
    ensures var th := ThreadOf(x, y);
            && th.X() == x && th.Y() == y
            && (x < img.width && y < img.height ==> InGrid(img, th))
            && forall o: Thread :: InGrid(img, o) && o.X() == x && o.Y() == y ==> o == th
  {
  }

  // ----- blending one word

  function Weigh(v: real, weight: real): real { v * weight }

  /** `(unsigned short)(float(v) * weight)`. */
  function Part(v: nat, weight: real): nat
    requires 0.0 <= weight
  {
    NonNegative(v as real, weight);
    Weigh(v as real, weight).Floor
  }

  /** The kernel's expression, including the conversion back to sixteen bits. */
  function Blend(v: nat, tint: nat, opacity: real): nat
    requires 0.0 <= opacity <= 1.0
  {
    (Part(v, opacity) + Part(tint, 1.0 - opacity)) % WORD
  }

  /** Both operands weighted and truncated, and added. */
  ghost function WeightedSum(v: nat, tint: nat, opacity: real): int {
    (v as real * opacity).Floor + (tint as real * (1.0 - opacity)).Floor
  }

  /** Blending never wraps: the result stays between its operands, less one for the truncations. */
  lemma BlendInRange(v: nat, tint: nat, opacity: real)
    requires 0.0 <= opacity <= 1.0 && v < 65536 && tint < 65536
    ensures var r := Blend(v, tint, opacity);
            && r == Part(v, opacity) + Part(tint, 1.0 - opacity)
            && (if v < tint then v else tint) - 1 <= r <= (if v < tint then tint else v)
  {
    var lo, hi := if v < tint then v else tint, if v < tint then tint else v;
    ConvexBounds(v as real, tint as real, opacity, lo as real, hi as real);
    FloorSum(Weigh(v as real, opacity), Weigh(tint as real, 1.0 - opacity), lo, hi);
    SmallRemainder(Part(v, opacity) + Part(tint, 1.0 - opacity));
  }

  lemma BlendIsSum(v: nat, tint: nat, opacity: real)
    requires 0.0 <= opacity <= 1.0 && v < 65536 && tint < 65536
    ensures Blend(v, tint, opacity) == WeightedSum(v, tint, opacity)
  {
    BlendInRange(v, tint, opacity);
    PartIs(v, opacity);
    PartIs(tint, 1.0 - opacity);
  }

  lemma PartIs(v: nat, weight: real)
    requires 0.0 <= weight
    ensures Part(v, weight) == (v as real * weight).Floor
  {
    assert Weigh(v as real, weight) == v as real * weight;
  }

  /** The result is the weighted mean of the operands, short of it by less than two. */
  lemma BlendIsMean(v: nat, tint: nat, opacity: real)
    requires 0.0 <= opacity <= 1.0 && v < 65536 && tint < 65536
    ensures var mean := v as real * opacity + tint as real * (1.0 - opacity);
            mean - 2.0 < Blend(v, tint, opacity) as real <= mean
    ensures Blend(v, tint, 1.0) == v && Blend(v, tint, 0.0) == tint
  {
    BlendInRange(v, tint, opacity);
    BlendInRange(v, tint, 1.0);
    BlendInRange(v, tint, 0.0);
    var a, b := Part(v, opacity), Part(tint, 1.0 - opacity);
    assert (a + b) as real == a as real + b as real;
  }

  lemma FloorSum(a: real, b: real, lo: int, hi: int)
    requires lo as real <= a + b <= hi as real
    ensures lo - 1 <= a.Floor + b.Floor <= hi
  {
    assert (a.Floor + b.Floor) as real == a.Floor as real + b.Floor as real;
  }

  lemma SmallRemainder(n: nat)
    requires n < WORD
    ensures n % WORD == n
  {
  }

  lemma NonNegative(a: real, b: real)
    requires a >= 0.0 && b >= 0.0
    ensures a * b >= 0.0
  {
  }

  lemma ConvexBounds(v: real, t: real, o: real, lo: real, hi: real)
    requires 0.0 <= o <= 1.0 && lo <= v <= hi && lo <= t <= hi
    ensures lo <= Weigh(v, o) + Weigh(t, 1.0 - o) <= hi
  {
    NonNegative(v - lo, o);
    NonNegative(t - lo, 1.0 - o);
    NonNegative(hi - v, o);
    NonNegative(hi - t, 1.0 - o);
    assert lo * o + lo * (1.0 - o) == lo && hi * o + hi * (1.0 - o) == hi;
  }

  // ----- the blended image, word by word

  function WordOf(img: Image, x: nat, y: nat, c: nat): nat {
    y * img.stride * 3 + (x * 3 + c)
  }

  ghost predicate Fits(img: Image, words: nat) {
    img.height * img.stride * 3 <= words
  }

  function Quotient(i: nat, n: nat): nat { if n == 0 then 0 else i / n }
  function Remainder(i: nat, n: nat): nat { if n == 0 then 0 else i % n }

  function Row(img: Image, i: nat): nat { Quotient(i, 3 * img.stride) }
  function Column(img: Image, i: nat): nat { Remainder(i, 3 * img.stride) / 3 }
  function Channel(img: Image, i: nat): nat { Remainder(i, 3 * img.stride) % 3 }

  /** Word `i` is a word of an image pixel, not padding. */
  predicate InImage(img: Image, i: nat) {
    img.stride > 0 && Column(img, i) < img.width && Row(img, i) < img.height
  }

  function BlendedWord(img: Image, i: nat, v: nat): nat
    requires img.Valid()
  {
    if InImage(img, i) && img.tint[Channel(img, i)] > 0
    then Blend(v, img.tint[Channel(img, i)], img.opacity)
    else v
  }

  function Blended(img: Image, buf: seq<nat>): (r: seq<nat>)
    requires img.Valid()
    ensures |r| == |buf|
  {
    seq(|buf|, i requires 0 <= i < |buf| => BlendedWord(img, i, buf[i]))
  }

  /** Every value fits a sixteen-bit word. */
  ghost predicate AllWords(buf: seq<nat>) { forall i :: 0 <= i < |buf| ==> buf[i] < 65536 }

  /** Blending a buffer of words gives a buffer of words, without any wrap-around: each tinted word
      lies between the old word and the tint, less one. */
  lemma BlendedWords(img: Image, buf: seq<nat>)
    requires img.Valid()
    ensures AllWords(buf) ==> AllWords(Blended(img, buf))
    ensures AllWords(buf) ==>
              forall i :: 0 <= i < |buf| && InImage(img, i) && img.tint[Channel(img, i)] > 0 ==>
                var v, t := buf[i], img.tint[Channel(img, i)];
                (if v < t then v else t) <= Blended(img, buf)[i] + 1 <= (if v < t then t else v) + 1
  {
    if AllWords(buf) {
      forall i | 0 <= i < |buf| && InImage(img, i) && img.tint[Channel(img, i)] > 0
        ensures Blended(img, buf)[i] < 65536
        ensures var v, t := buf[i], img.tint[Channel(img, i)];
                (if v < t then v else t) <= Blended(img, buf)[i] + 1 <= (if v < t then t else v) + 1
      {
        BlendInRange(buf[i], img.tint[Channel(img, i)], img.opacity);
      }
    }
  }

  /** Addresses and pixel channels correspond one to one. */
  lemma WordCoordinates(img: Image, x: nat, y: nat, c: nat)
    requires x < img.stride && c < 3
    ensures var i := WordOf(img, x, y, c);
            && i == 3 * (y * img.stride + x) + c
            && Channel(img, i) == c && Column(img, i) == x && Row(img, i) == y
  {
    var i := WordOf(img, x, y, c);
    assert y * img.stride * 3 == y * (3 * img.stride);
    QuotientUnique(3 * img.stride, y, x * 3 + c);
    assert i == 3 * (y * img.stride) + 3 * x + c;
  }

  /** The blended image pixel by pixel: channel `c` of the pixel at `(x, y)` is word
      `3 (y stride + x) + c`; a tint of 0 leaves its channel alone. */
  lemma BlendedPixel(img: Image, buf: seq<nat>, x: nat, y: nat, c: nat)
    requires img.Valid() && x < img.width && y < img.height && c < 3 && AllWords(buf)
    requires 3 * (y * img.stride + x) + c < |buf|
    ensures var i, t := 3 * (y * img.stride + x) + c, img.tint[c];
            Blended(img, buf)[i] == if t == 0 then buf[i] else WeightedSum(buf[i], t, img.opacity)
  {
    WordCoordinates(img, x, y, c);
    BlendedAt(img, buf, WordOf(img, x, y, c), c);
  }

  lemma BlendedAt(img: Image, buf: seq<nat>, i: nat, c: nat)
    requires img.Valid() && AllWords(buf) && i < |buf| && c < 3
    requires InImage(img, i) && Channel(img, i) == c
    ensures Blended(img, buf)[i] ==
            if img.tint[c] == 0 then buf[i] else WeightedSum(buf[i], img.tint[c], img.opacity)
  {
    assert Blended(img, buf)[i] == BlendedWord(img, i, buf[i]);
    BlendIsSum(buf[i], img.tint[c], img.opacity);
  }

  /** And every other word is left alone. */
  lemma UnblendedWord(img: Image, buf: seq<nat>, i: nat)
    requires img.Valid() && i < |buf|
    requires forall x: nat, y: nat, c: nat :: x < img.width && y < img.height && c < 3 ==> i != WordOf(img, x, y, c)
    ensures Blended(img, buf)[i] == buf[i]
  {
    if img.stride > 0 { WordOfCoordinates(img, i); }
  }

  lemma WordOfCoordinates(img: Image, i: nat)
    requires img.stride > 0
    ensures WordOf(img, Column(img, i), Row(img, i), Channel(img, i)) == i && Channel(img, i) < 3
  {
    var y := i / (3 * img.stride);
    assert y * img.stride * 3 == y * (3 * img.stride);
    assert i == y * (3 * img.stride) + i % (3 * img.stride);
  }

  lemma WordInBuffer(img: Image, x: nat, y: nat, c: nat, words: nat)
    requires x < img.width <= img.stride && y < img.height && c < 3 && Fits(img, words)
    ensures WordOf(img, x, y, c) < words
  {
    MultipleMonotone(y + 1, img.height, img.stride);
    assert (y + 1) * img.stride == y * img.stride + img.stride;
  }

  // ----- the kernel, one thread after another in any order

  /** The words that a thread reads and writes. */
  predicate Owns(img: Image, th: Thread, i: nat) {
    InImage(img, i) && Column(img, i) == th.X() && Row(img, i) == th.Y()
  }

  lemma OwnedWord(img: Image, th: Thread, c: nat, words: nat)
    requires img.Valid() && Fits(img, words) && OnImage(img, th) && c < 3
    ensures var i := WordOf(img, th.X(), th.Y(), c);
            && i < words && Owns(img, th, i) && Channel(img, i) == c
            && forall j: nat :: Owns(img, th, j) && Channel(img, j) == c ==> j == i
  {
    WordInBuffer(img, th.X(), th.Y(), c, words);
    WordCoordinates(img, th.X(), th.Y(), c);
    forall j: nat | Owns(img, th, j) && Channel(img, j) == c ensures j == WordOf(img, th.X(), th.Y(), c) {
      WordOfCoordinates(img, j);
    }
  }

  /** One thread. Past the edge of the image it writes nothing. */
  method MakeRed(img: Image, th: Thread, buf: array<nat>)
    requires img.Valid() && Fits(img, buf.Length)
    modifies buf
    ensures forall i :: 0 <= i < buf.Length ==>
              buf[i] == if Owns(img, th, i) then BlendedWord(img, i, old(buf[i])) else old(buf[i])
  {
    var x, y := th.X(), th.Y();
    if x >= img.width || y >= img.height { return; }
    forall c | 0 <= c < 3
      ensures var i := WordOf(img, x, y, c); i < buf.Length && Owns(img, th, i) && Channel(img, i) == c
      ensures forall j: nat :: Owns(img, th, j) && Channel(img, j) == c ==> j == WordOf(img, x, y, c)
    {
      OwnedWord(img, th, c, buf.Length);
    }
    var r, g, b := WordOf(img, x, y, 0), WordOf(img, x, y, 1), WordOf(img, x, y, 2);
    if img.tint[0] > 0 { buf[r] := Blend(buf[r], img.tint[0], img.opacity); }
    if img.tint[1] > 0 { buf[g] := Blend(buf[g], img.tint[1], img.opacity); }
    if img.tint[2] > 0 { buf[b] := Blend(buf[b], img.tint[2], img.opacity); }
  }

  /** Running every thread of the grid once, in any order, blends the image. */
  method Launch(img: Image, order: seq<Thread>, buf: array<nat>)
    requires img.Valid() && Fits(img, buf.Length)
    requires forall th: Thread :: InGrid(img, th) <==> th in order
    requires forall a, b :: 0 <= a < b < |order| ==> order[a] != order[b]
    modifies buf
    ensures buf[..] == Blended(img, old(buf[..]))
    ensures AllWords(old(buf[..])) ==> AllWords(buf[..])
  {
    BlendedWords(img, buf[..]);
    for n := 0 to |order|
      invariant forall i :: 0 <= i < buf.Length ==>
                  buf[i] == if Touched(img, order[..n], i) then BlendedWord(img, i, old(buf[i])) else old(buf[i])
    {
      TouchedBy(img, order, n);
      MakeRed(img, order[n], buf);
    }
    assert order[..|order|] == order;
    forall i | 0 <= i < buf.Length && InImage(img, i) ensures Touched(img, order, i) {
      GridCoversPixels(img, Column(img, i), Row(img, i));
    }
  }

  ghost predicate Touched(img: Image, done: seq<Thread>, i: nat) {
    InImage(img, i) && ThreadOf(Column(img, i), Row(img, i)) in done
  }

  lemma TouchedBy(img: Image, order: seq<Thread>, n: nat)
    requires n < |order| && forall th: Thread :: InGrid(img, th) <==> th in order
    requires forall a, b :: 0 <= a < b < |order| ==> order[a] != order[b]
    ensures forall i: nat :: Touched(img, order[..n + 1], i) <==> Touched(img, order[..n], i) || Owns(img, order[n], i)
    ensures forall i: nat :: !(Touched(img, order[..n], i) && Owns(img, order[n], i))
  {
    assert order[..n + 1] == order[..n] + [order[n]];
    forall i: nat
      ensures InImage(img, i) ==> (Owns(img, order[n], i) <==> ThreadOf(Column(img, i), Row(img, i)) == order[n])
    {
      GridCoversPixels(img, Column(img, i), Row(img, i));
      assert order[n] in order;
    }
  }

  /** The operator's settings. It treats the image as unpadded: the stride is the width. */
  class ColorizeOperator {
    const red: nat
    const green: nat
    const blue: nat
    var opacity: real
    var width: nat
    var height: nat

    ghost predicate Valid()
      reads this
    {
      red < 65536 && green < 65536 && blue < 65536 && 0.0 <= opacity <= 1.0
    }

    function Settings(): Image
      reads this
    {
      Image(width, height, width, [red, green, blue], opacity)
    }

    /** The opacity is clamped to [0, 1]. */
    constructor (red: nat, green: nat, blue: nat, opacity: real, width: nat, height: nat)
      requires red < 65536 && green < 65536 && blue < 65536
      ensures Valid() && Settings() == Image(width, height, width, [red, green, blue], this.opacity)
      ensures this.opacity == if opacity < 0.0 then 0.0 else if opacity > 1.0 then 1.0 else opacity
    {
      this.red, this.green, this.blue := red, green, blue;
      this.opacity := opacity;
      this.width, this.height := width, height;
      new;
      if this.opacity < 0.0 {
        this.opacity := 0.0;
      } else if this.opacity > 1.0 {
        this.opacity := 1.0;
      }
    }

    method Configure(width: nat, height: nat)
      requires Valid()
      modifies this
      ensures Valid() && opacity == old(opacity)
      ensures Settings() == old(Settings()).(width := width, height := height, stride := width)
    {
      this.width, this.height := width, height;
    }

    method Compute(buf: array<nat>, order: seq<Thread>)
      requires Valid() && height * width * 3 <= buf.Length
      requires forall th: Thread :: InGrid(Settings(), th) <==> th in order
      requires forall a, b :: 0 <= a < b < |order| ==> order[a] != order[b]
      modifies buf
      ensures buf[..] == Blended(Settings(), old(buf[..]))
      ensures AllWords(old(buf[..])) ==> AllWords(buf[..])
    {
      Launch(Settings(), order, buf);
    }
  }
}
