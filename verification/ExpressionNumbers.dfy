/** Number literals of expressions: how they are read, and what is left of them when printed. */
module ExpressionNumbers {
  import opened Division
  import opened ExpressionTokens
  import opened Options

  /** `digits` divided by ten to the power of `scale`. */
  datatype Decimal = Decimal(digits: nat, scale: nat)

  function Pow10(k: nat): (p: nat)
    ensures p > 0
  {
    if k == 0 then 1 else 10 * Pow10(k - 1)
  }

  function DigitValue(c: char): (v: nat)
    requires IsDigit(c)
    ensures v < 10 && (v == 0 <==> c == '0')
  {
    c as nat - '0' as nat
  }

  predicate AllDigits(s: string) { forall k :: 0 <= k < |s| ==> IsDigit(s[k]) }

  function NatOf(s: string): nat
    requires AllDigits(s)
  {
    if s == "" then 0 else 10 * NatOf(s[..|s| - 1]) + DigitValue(s[|s| - 1])
  }

  /** The position of the point, or the length. */
  function PointAt(s: string): (n: nat)
    ensures n <= |s| && (n < |s| ==> s[n] == '.')
    ensures forall k :: 0 <= k < n ==> s[k] != '.'
  {
    if s == "" || s[0] == '.' then 0 else 1 + PointAt(s[1..])
  }

  function Fraction(s: string): string { if PointAt(s) < |s| then s[PointAt(s) + 1..] else "" }

  function Digits(s: string): string { s[..PointAt(s)] + Fraction(s) }

  lemma DigitsAreDigits(s: string)
    requires IsNumber(s)
    ensures AllDigits(Digits(s)) && AllDigits(Fraction(s))
  {
    var n := PointAt(s);
    if n < |s| {
      forall k | n < k < |s| ensures IsDigit(s[k]) {
        assert s[n] == '.';
      }
    }
  }

  /** `std::stof`: a point without any digit is refused. */
  function ReadNumber(s: string): Option<Decimal> {
    if IsNumber(s) && Digits(s) != "" then
      DigitsAreDigits(s);
      Some(Decimal(NatOf(Digits(s)), |Fraction(s)|))
    else None
  }

  // ----- which number a literal is

  /** The decimal digits of a number, without leading zeros. */
  function Numeral(n: nat): string {
    if n == 0 then "" else Numeral(n / 10) + [('0' as int + n % 10) as char]
  }

  /** Digits are read as the number that has them, */
  lemma {:induction false} NumeralRead(n: nat)
    ensures AllDigits(Numeral(n)) && NatOf(Numeral(n)) == n
  {
    if n == 0 {
    } else {
      NumeralRead(n / 10);
      var s := Numeral(n);
      assert s[..|s| - 1] == Numeral(n / 10);
    }
  }

  /** zeros in front change nothing, */
  lemma {:induction false} ZerosBefore(s: string, zeros: string)
    requires AllDigits(s) && OnlyZeros(zeros)
    ensures AllDigits(zeros + s) && NatOf(zeros + s) == NatOf(s)
  {
    if zeros == "" {
      assert zeros + s == s;
    } else {
      ZerosBefore(s, zeros[1..]);
      ZeroInFront(zeros[1..] + s);
      assert zeros + s == "0" + (zeros[1..] + s);
    }
  }

  /** zeros behind multiply by ten each, */
  lemma {:induction false} ZerosBehind(s: string, zeros: string)
    requires AllDigits(s) && OnlyZeros(zeros)
    ensures AllDigits(s + zeros) && NatOf(s + zeros) == NatOf(s) * Pow10(|zeros|)
  {
    if zeros == "" {
      assert s + zeros == s;
    } else {
      var n := |zeros| - 1;
      ZerosBehind(s, zeros[..n]);
      assert (s + zeros)[..|s| + n] == s + zeros[..n];
      TenAfter(NatOf(s), Pow10(n));
    }
  }

  lemma TenAfter(m: nat, p: nat)
    ensures 10 * (m * p) == m * (10 * p)
  {
  }

  /** and a point divides by ten for each digit behind it; a point alone is no number. */
  lemma LiteralIs(u: string, w: string)
    requires AllDigits(u) && AllDigits(w)
    ensures AllDigits(u + w)
    ensures u != "" ==> ReadNumber(u) == Some(Decimal(NatOf(u), 0))
    ensures ReadNumber(u + "." + w) == if u + w == "" then None else Some(Decimal(NatOf(u + w), |w|))
  {
    NoPoint(u);
    assert u + "" == u;
    var s := u + "." + w;
    PointIs(s, |u|);
    assert s[..|u|] == u && s[|u| + 1..] == w;
    PointOnce(u, w);
  }

  lemma PointOnce(u: string, w: string)
    requires AllDigits(u) && AllDigits(w)
    ensures IsNumber(u + "." + w)
  {
    var s := u + "." + w;
    forall k | 0 <= k < |s| ensures (IsDigit(s[k]) || s[k] == '.') && (s[k] == '.' <==> k == |u|) {
      assert s[k] == if k < |u| then u[k] else if k == |u| then '.' else w[k - |u| - 1];
    }
  }

  lemma {:induction false} NoPoint(u: string)
    requires AllDigits(u)
    ensures PointAt(u) == |u| && (u != "" ==> IsNumber(u))
  {
    if u == "" {
    } else {
      NoPoint(u[1..]);
    }
  }

  // ----- printing

  function DigitCount(m: nat): nat { if m == 0 then 0 else 1 + DigitCount(m / 10) }

  /** The multiple of `p` nearest to `m`; between two, the even one. */
  function RoundTo(m: nat, p: nat): nat
    requires p > 0
  {
    var q, r := m / p, m % p;
    if 2 * r < p || (2 * r == p && q % 2 == 0) then q * p else (q + 1) * p
  }

  const PRECISION := 6

  /** How many digits of `m` printing drops. */
  function Dropped(m: nat): nat { if DigitCount(m) <= PRECISION then 0 else DigitCount(m) - PRECISION }

  predicate IsWhole(d: Decimal) { d.digits % Pow10(d.scale) == 0 }

  /** Whole numbers are printed in full, others with six significant digits. */
  function Printed(d: Decimal): Decimal {
    if IsWhole(d) then d else Decimal(RoundTo(d.digits, Pow10(Dropped(d.digits))), d.scale)
  }

  lemma RoundToNearest(m: nat, p: nat)
    requires p > 0
    ensures var n := RoundTo(m, p); n % p == 0 && -(p as int) <= 2 * (n - m) <= p
    ensures RoundTo(m, p) == m <==> m % p == 0
    ensures var d := 2 * (RoundTo(m, p) - m); d == p || d == -(p as int) ==> RoundTo(m, p) / p % 2 == 0
  {
    var q, r := m / p, m % p;
    QuotientUnique(p, q, 0);
    QuotientUnique(p, q + 1, 0);
    assert m == q * p + r;
    MultipleOf(q, p);
    MultipleOf(q + 1, p);
    assert (q + 1) * p == q * p + p;
  }

  lemma MultipleOf(q: nat, p: nat)
    requires p > 0
    ensures (q * p) % p == 0
  {
    QuotientUnique(p, q, 0);
  }

  lemma {:induction false} DigitCountBounds(m: nat)
    requires m > 0
    ensures DigitCount(m) > 0 && Pow10(DigitCount(m) - 1) <= m < Pow10(DigitCount(m))
  {
    if m < 10 {
      assert DigitCount(m / 10) == 0;
    } else {
      DigitCountBounds(m / 10);
    }
  }

  lemma {:induction false} Pow10Monotone(a: nat, b: nat)
    requires a <= b
    ensures Pow10(a) <= Pow10(b)
  {
    if a == b {
    } else {
      Pow10Monotone(a, b - 1);
    }
  }

  lemma DigitCountUnique(m: nat, n: nat)
    requires n > 0 && Pow10(n - 1) <= m < Pow10(n)
    ensures DigitCount(m) == n
  {
    DigitCountBounds(m);
    if DigitCount(m) < n { Pow10Monotone(DigitCount(m), n - 1); }
    if n < DigitCount(m) { Pow10Monotone(n, DigitCount(m) - 1); }
  }

  /** A number of up to six digits is printed as it is. One with `k` digits more is too if it is whole;
      else it is printed as the nearest multiple of the unit of its sixth digit, between two the even
      multiple. */
  lemma PrintedNear(d: Decimal, k: nat)
    ensures d.digits < 1000000 ==> Printed(d) == d
    ensures d.digits % Pow10(d.scale) == 0 ==> Printed(d) == d
    ensures Pow10(k + 5) <= d.digits < Pow10(k + 6) && d.digits % Pow10(d.scale) != 0 ==>
              var n, u := Printed(d).digits, Pow10(k);
              && Printed(d).scale == d.scale
              && n % u == 0 && -(u as int) <= 2 * (n - d.digits) <= u
              && (2 * (n - d.digits) == u || 2 * (n - d.digits) == -(u as int) ==> n / u % 2 == 0)
  {
    if d.digits < 1000000 { SixDigits(d.digits); }
    if Pow10(k + 5) <= d.digits < Pow10(k + 6) { DigitCountUnique(d.digits, k + 6); }
    RoundToNearest(d.digits, Pow10(Dropped(d.digits)));
  }

  lemma SixDigits(m: nat)
    requires m < 1000000
    ensures DigitCount(m) <= 6
  {
    assert Pow10(2) == 10 * Pow10(1) == 100;
    assert Pow10(4) == 10 * Pow10(3) == 100 * Pow10(2);
    assert Pow10(6) == 10 * Pow10(5) == 100 * Pow10(4);
    if DigitCount(m) > 6 {
      DigitCountBounds(m);
      Pow10Monotone(6, DigitCount(m) - 1);
    }
  }

  // ----- which literals keep their value

  predicate OnlyZeros(s: string) { forall k :: 0 <= k < |s| ==> s[k] == '0' }

  function WithoutLeadingZeros(s: string): string {
    if s != "" && s[0] == '0' then WithoutLeadingZeros(s[1..]) else s
  }

  lemma TenTimes(n: nat, v: nat, p: nat)
    requires p > 0 && v < 10
    ensures (10 * n + v) % (10 * p) == 0 <==> v == 0 && n % p == 0
  {
    var q, r := n / p, n % p;
    assert n == q * p + r;
    assert 10 * n + v == q * (10 * p) + (10 * r + v);
    QuotientUnique(10 * p, q, 10 * r + v);
  }

  lemma ZerosSnoc(s: string, c: char)
    ensures OnlyZeros(s + [c]) <==> OnlyZeros(s) && c == '0'
  {
    assert (s + [c])[|s|] == c;
    assert forall k :: 0 <= k < |s| ==> (s + [c])[k] == s[k];
  }

  lemma {:induction false} TrailingZeros(s: string, k: nat)
    requires AllDigits(s) && k <= |s|
    ensures NatOf(s) % Pow10(k) == 0 <==> OnlyZeros(s[|s| - k..])
  {
    if k == 0 {
    } else {
      var n := |s| - 1;
      var front := s[..n];
      TrailingZeros(front, k - 1);
      TenTimes(NatOf(front), DigitValue(s[n]), Pow10(k - 1));
      assert s[|s| - k..] == front[n - (k - 1)..] + [s[n]];
      ZerosSnoc(front[n - (k - 1)..], s[n]);
    }
  }

  lemma {:induction false} ZeroInFront(s: string)
    requires AllDigits(s)
    ensures AllDigits("0" + s) && NatOf("0" + s) == NatOf(s)
  {
    if s == "" {
      assert ("0" + s)[..0] == "";
    } else {
      ZeroInFront(s[..|s| - 1]);
      assert ("0" + s)[..|s|] == "0" + s[..|s| - 1];
    }
  }

  lemma {:induction false} LeadingZeros(s: string)
    requires AllDigits(s)
    ensures var t := WithoutLeadingZeros(s);
            && AllDigits(t) && NatOf(t) == NatOf(s) && (t != "" ==> t[0] != '0')
  {
    if s != "" && s[0] == '0' {
      LeadingZeros(s[1..]);
      ZeroInFront(s[1..]);
      assert s == "0" + s[1..];
    }
  }

  lemma {:induction false} DigitCountOf(s: string)
    requires AllDigits(s) && (s != "" ==> s[0] != '0')
    ensures DigitCount(NatOf(s)) == |s|
  {
    if s == "" {
    } else {
      var n := |s| - 1;
      DigitCountOf(s[..n]);
      assert (10 * NatOf(s[..n]) + DigitValue(s[n])) / 10 == NatOf(s[..n]);
      assert n == 0 ==> DigitValue(s[0]) > 0;
    }
  }

  /** Main result: a literal keeps its value if and only if it has only zeros after the point, or
      only zeros after its sixth significant digit. */
  lemma LiteralKept(s: string)
    requires ReadNumber(s).Some?
    ensures var d, significant := ReadNumber(s).value, WithoutLeadingZeros(Digits(s));
            Printed(d) == d <==>
            OnlyZeros(Fraction(s)) || |significant| <= 6 || OnlyZeros(significant[6..])
  {
    DigitsAreDigits(s);
    PrintedSame(ReadNumber(s).value);
    WholeLiteral(s);
    NoDigitDropped(Digits(s));
  }

  lemma PrintedSame(d: Decimal)
    ensures Printed(d) == d <==> IsWhole(d) || d.digits % Pow10(Dropped(d.digits)) == 0
  {
    RoundToNearest(d.digits, Pow10(Dropped(d.digits)));
  }

  lemma WholeLiteral(s: string)
    requires ReadNumber(s).Some?
    ensures IsWhole(ReadNumber(s).value) <==> OnlyZeros(Fraction(s))
  {
    DigitsAreDigits(s);
    var ds, n := Digits(s), |Fraction(s)|;
    assert ds[|ds| - n..] == Fraction(s);
    TrailingZeros(ds, n);
  }

  lemma NoDigitDropped(s: string)
    requires AllDigits(s)
    ensures var significant := WithoutLeadingZeros(s);
            NatOf(s) % Pow10(Dropped(NatOf(s))) == 0 <==>
            |significant| <= PRECISION || OnlyZeros(significant[PRECISION..])
  {
    LeadingZeros(s);
    var significant := WithoutLeadingZeros(s);
    DigitCountOf(significant);
    TrailingZeros(significant, Dropped(NatOf(s)));
  }

  /** One that does not: seven digits and a half. */
  lemma LiteralRounded()
    ensures var s := "1234567.5"; ReadNumber(s).Some? && Printed(ReadNumber(s).value) != ReadNumber(s).value
  {
    var s := "1234567.5";
    HalfDigits();
    LiteralKept(s);
    assert WithoutLeadingZeros("12345675")[PRECISION..] == "75";
  }

  lemma HalfDigits()
    ensures var s := "1234567.5"; IsNumber(s) && Fraction(s) == "5" && Digits(s) == "12345675"
  {
    var s := "1234567.5";
    HalfIsNumber();
    PointIs(s, 7);
    assert s[8..] == "5";
    assert s[..7] == "1234567";
  }

  lemma HalfIsNumber()
    ensures IsNumber("1234567.5")
  {
    var s := "1234567.5";
    forall k | 0 <= k < |s| ensures IsDigit(s[k]) || s[k] == '.' {
    }
    assert forall k :: 0 <= k < |s| ==> (s[k] == '.' <==> k == 7);
  }

  lemma {:induction false} PointIs(s: string, n: nat)
    requires n < |s| && s[n] == '.' && forall k :: 0 <= k < n ==> s[k] != '.'
    ensures PointAt(s) == n
  {
    if n == 0 {
    } else {
      PointIs(s[1..], n - 1);
    }
  }
}
