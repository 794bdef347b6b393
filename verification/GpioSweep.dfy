/** The GPIO demonstration: sweeps the pins one a step, through five test configurations. */
module GpioSweep {
  import opened Division
  import opened GpioBoard
  import opened Options

  datatype Config = AllOutL | AllOutH | AllIn | OddOutH | EvenOutH

  const CONFIGS: seq<Config> := [AllOutL, AllOutH, AllIn, OddOutH, EvenOutH]

  function DirectionOf(c: Config, pin: nat): Direction {
    match c
    case AllOutL => Out
    case AllOutH => Out
    case AllIn => In
    case OddOutH => if pin % 2 == 1 then Out else In
    case EvenOutH => if pin % 2 == 1 then In else Out
  }

  /** The level a configuration drives on its outputs. */
  function LevelOf(c: Config): Level { if c == AllOutL then Low else High }

  /** Pin `q` is as configuration `c` wants it. */
  predicate Follows(p: Pins, c: Config, q: nat)
    requires q < |p.dir| && p.Valid(|p.dir|)
  {
    p.dir[q] == DirectionOf(c, q) && (p.dir[q] == Out ==> p.latch[q] == LevelOf(c))
  }

  // ----- the state machine

  datatype Sweep = Sweep(pins: Pins, pin: nat, config: nat) {
    ghost predicate Valid(n: nat) { pins.Valid(n) && pin < n && config < 5 }
  }

  /** The pin's direction is set first; an output is driven by its old bit until its value is set. */
  function MidStep(s: Sweep, n: nat): (p: Pins)
    requires s.Valid(n)
    ensures p.Valid(n)
  {
    WithDirection(s.pins, s.pin, DirectionOf(CONFIGS[s.config], s.pin))
  }

  /** What the accesses of a step make of the pins. */
  function Applied(s: Sweep, n: nat, external: seq<Level>): (p: Pins)
    requires s.Valid(n) && Sampled(external, n)
    ensures p.Valid(n)
  {
    var c := CONFIGS[s.config];
    var mid := MidStep(s, n);
    if DirectionOf(c, s.pin) == Out then WithValue(mid, external, s.pin, LevelOf(c)) else mid
  }

  function Step(s: Sweep, n: nat, external: seq<Level>): (r: Sweep)
    requires s.Valid(n) && Sampled(external, n)
    ensures r.Valid(n)
  {
    var pin := (s.pin + 1) % n;
    Sweep(Applied(s, n, external), pin, if pin == 0 then (s.config + 1) % 5 else s.config)
  }

  ghost predicate AllOutHigh(p: Pins, n: nat) {
    p.Valid(n) && forall q :: 0 <= q < n ==> p.dir[q] == Out && p.latch[q] == High
  }

  /** The samples of every step, one level a pin. */
  ghost predicate Samples(exts: seq<seq<Level>>, n: nat) {
    forall k :: 0 <= k < |exts| ==> Sampled(exts[k], n)
  }

  function Run(start: Pins, n: nat, exts: seq<seq<Level>>): (s: Sweep)
    requires n > 0 && start.Valid(n) && Samples(exts, n)
    ensures s.Valid(n)
  {
    if exts == [] then Sweep(start, 0, 0)
    else Step(Run(start, n, exts[..|exts| - 1]), n, exts[|exts| - 1])
  }

  // ----- what every run keeps

  /** The configuration that governs pin `q` after `k` steps: the current one below the cursor,
      the previous one from the cursor on, and all-high before the first. */
  function Governing(n: nat, k: nat, q: nat): Config
    requires n > 0
  {
    if q < k % n then CONFIGS[(k / n) % 5]
    else if k < n then AllOutH
    else CONFIGS[(k / n - 1) % 5]
  }

  lemma Advance(n: nat, k: nat)
    requires n > 0
    ensures if k % n + 1 < n then (k + 1) % n == k % n + 1 && (k + 1) / n == k / n
            else (k + 1) % n == 0 && (k + 1) / n == k / n + 1 && k % n == n - 1
  {
    var q, r := k / n, k % n;
    assert k == q * n + r;
    if r + 1 < n {
      QuotientUnique(n, q, r + 1);
    } else {
      assert k + 1 == (q + 1) * n + 0;
      QuotientUnique(n, q + 1, 0);
    }
  }

  lemma CursorAdvances(n: nat, k: nat)
    requires n > 0
    ensures 0 <= k % n < n && 0 <= k / n
    ensures (k + 1) % n == (k % n + 1) % n
    ensures ((k + 1) / n) % 5 == if (k + 1) % n == 0 then ((k / n) % 5 + 1) % 5 else (k / n) % 5
  {
    Advance(n, k);
    Successor5(k / n);
    if k % n + 1 < n {
      QuotientUnique(n, 0, k % n + 1);
    } else {
      QuotientUnique(n, 1, 0);
    }
  }

  lemma Successor5(q: nat)
    ensures (q + 1) % 5 == (q % 5 + 1) % 5
  {
  }

  lemma GoverningAdvances(n: nat, k: nat, q: nat)
    requires n > 0 && q < n
    ensures Governing(n, k + 1, q) == if q == k % n then CONFIGS[(k / n) % 5] else Governing(n, k, q)
  {
    Advance(n, k);
    FirstSweep(n, k);
    FirstSweep(n, k + 1);
  }

  lemma FirstSweep(n: nat, k: nat)
    requires n > 0
    ensures k < n <==> k / n == 0
  {
    assert k == (k / n) * n + k % n;
    MultipleMonotone(1, k / n, n);
  }

  ghost predicate AllFollow(p: Pins, n: nat, k: nat)
    requires n > 0 && p.Valid(n)
  {
    forall q :: 0 <= q < n ==> Follows(p, Governing(n, k, q), q)
  }

  lemma StepFollows(s: Sweep, n: nat, external: seq<Level>, k: nat)
    requires n > 0 && s.Valid(n) && Sampled(external, n)
    requires s.pin == k % n && s.config == (k / n) % 5 && AllFollow(s.pins, n, k)
    ensures AllFollow(Step(s, n, external).pins, n, k + 1)
  {
    var k' := k + 1;
    var s' := Step(s, n, external);
    forall q | 0 <= q < n ensures Follows(s'.pins, Governing(n, k', q), q) {
      GoverningAdvances(n, k, q);
      assert Follows(s.pins, Governing(n, k, q), q);
    }
  }

  /** Main result: after every step of every run the cursor, the configuration, and every pin are
      what the number of steps says. */
  lemma {:induction false} RunFollows(start: Pins, n: nat, exts: seq<seq<Level>>)
    requires n > 0 && AllOutHigh(start, n) && Samples(exts, n)
    ensures var k := |exts|;
            var s := Run(start, n, exts);
            && s.pin == k % n
            && s.config == (k / n) % 5
            && AllFollow(s.pins, n, k)
  {
    if exts == [] {
      QuotientUnique(n, 0, 0);
    } else {
      var k := |exts| - 1;
      RunFollows(start, n, exts[..k]);
      CursorAdvances(n, k);
      StepFollows(Run(start, n, exts[..k]), n, exts[k], k);
    }
  }

  /** In other words: a round of five sweeps drives all pins low, then all high, then none, then the
      odd ones high, then the even ones high. After `k` steps a pin is as the current sweep wants it if
      the cursor is past it, and else as the sweep before; before the first sweep all are high. */
  lemma PinsAfter(start: Pins, n: nat, exts: seq<seq<Level>>, q: nat)
    requires n > 0 && AllOutHigh(start, n) && Samples(exts, n) && q < n && (q < |exts| % n || |exts| >= n)
    ensures var p := Run(start, n, exts).pins;
            var k := |exts|;
            var sweep := if q < k % n then k / n else k / n - 1;
            && (p.dir[q] == In <==> sweep % 5 == 2 || (sweep % 5 == 3 && q % 2 == 0) || (sweep % 5 == 4 && q % 2 == 1))
            && (p.dir[q] == Out ==> (p.latch[q] == Low <==> sweep % 5 == 0))
  {
    RunFollows(start, n, exts);
    assert Follows(Run(start, n, exts).pins, Governing(n, |exts|, q), q);
    FirstSweep(n, |exts|);
  }

  /** A pin is driven low after a step exactly when the all-low sweep still governs it. */
  lemma DrivenLow(start: Pins, n: nat, exts: seq<seq<Level>>, q: nat)
    requires n > 0 && AllOutHigh(start, n) && Samples(exts, n) && q < n
    ensures var s := Run(start, n, exts);
            && (s.pins.dir[q] == Out && s.pins.latch[q] == Low <==> Governing(n, |exts|, q) == AllOutL)
            && (Governing(n, |exts|, q) == AllOutL ==> s.config <= 1)
  {
    RunFollows(start, n, exts);
    assert Follows(Run(start, n, exts).pins, Governing(n, |exts|, q), q);
    if Governing(n, |exts|, q) == AllOutL {
      LowSweepNear(n, |exts|, q);
    }
  }

  lemma LowSweepNear(n: nat, k: nat, q: nat)
    requires n > 0 && Governing(n, k, q) == AllOutL
    ensures (k / n) % 5 <= 1
  {
    if !(q < k % n) && k >= n {
      var round := k / n;
      assert round >= 1;
      assert (round - 1) % 5 == (if round % 5 == 0 then 4 else round % 5 - 1);
    }
  }

  // ----- inside a step

  /** Step `k` copies the levels of the bank of pin `q` into its output bits. */
  predicate WritesBank(n: nat, k: nat, q: nat)
    requires n > 0
  {
    DirectionOf(CONFIGS[(k / n) % 5], k % n) == Out && RegisterOf(k % n) == RegisterOf(q)
  }

  /** The output bit behind input pin `q` after `k` steps: high, as the last sweep that drove it
      left it, until a value write in its bank overwrites it with the outside level. */
  function HiddenBit(n: nat, exts: seq<seq<Level>>, q: nat): Level
    requires n > 0 && q < n && Samples(exts, n)
  {
    if exts == [] then High
    else
      var k := |exts| - 1;
      if DirectionOf(Governing(n, k, q), q) == Out then High
      else if WritesBank(n, k, q) then exts[k][q]
      else HiddenBit(n, exts[..k], q)
  }

  lemma StepHides(s: Sweep, n: nat, external: seq<Level>, k: nat, q: nat)
    requires n > 0 && q < n && s.Valid(n) && Sampled(external, n)
    requires s.pin == k % n && s.config == (k / n) % 5
    requires Follows(s.pins, Governing(n, k, q), q) && DirectionOf(Governing(n, k + 1, q), q) == In
    ensures Step(s, n, external).pins.latch[q] ==
            if DirectionOf(Governing(n, k, q), q) == In && WritesBank(n, k, q) then external[q] else s.pins.latch[q]
    ensures DirectionOf(Governing(n, k, q), q) == Out ==> LevelOf(Governing(n, k, q)) == High
  {
    GoverningAdvances(n, k, q);
    if DirectionOf(Governing(n, k, q), q) == Out {
      assert q == k % n;
      BecomesInput(n, k);
    }
  }

  /** A pin that turns from output to input was driven high before. */
  lemma BecomesInput(n: nat, k: nat)
    requires n > 0
    requires DirectionOf(CONFIGS[(k / n) % 5], k % n) == In && DirectionOf(Governing(n, k, k % n), k % n) == Out
    ensures LevelOf(Governing(n, k, k % n)) == High
  {
    if k >= n {
      var round := k / n;
      assert round >= 1;
      assert (round - 1) % 5 == (if round % 5 == 0 then 4 else round % 5 - 1);
    }
  }

  lemma {:induction false} HiddenBits(start: Pins, n: nat, exts: seq<seq<Level>>, q: nat)
    requires n > 0 && AllOutHigh(start, n) && Samples(exts, n) && q < n
    ensures DirectionOf(Governing(n, |exts|, q), q) == In ==>
              Run(start, n, exts).pins.latch[q] == HiddenBit(n, exts, q)
  {
    if exts == [] {
      QuotientUnique(n, 0, 0);
    } else if DirectionOf(Governing(n, |exts|, q), q) == In {
      var k := |exts| - 1;
      var s := Run(start, n, exts[..k]);
      HiddenBits(start, n, exts[..k], q);
      RunFollows(start, n, exts[..k]);
      assert Follows(s.pins, Governing(n, k, q), q);
      StepHides(s, n, exts[k], k, q);
    }
  }

  // ----- which sample a hidden bit holds

  /** Step `j` made the last value write in the register of pin `q` before step `k`, and the pin was
      an input from then on. */
  ghost predicate LastSampledAt(n: nat, k: nat, q: nat, j: nat)
    requires n > 0
  {
    && j < k && WritesBank(n, j, q)
    && (forall i :: j <= i < k ==> DirectionOf(Governing(n, i, q), q) == In)
    && (forall i :: j < i < k ==> !WritesBank(n, i, q))
  }

  /** Pin `q` was an output at step `j`, and no value write in its register came between `j` and `k`. */
  ghost predicate UnsampledSince(n: nat, k: nat, q: nat, j: nat)
    requires n > 0
  {
    && j < k && DirectionOf(Governing(n, j, q), q) == Out
    && forall i :: j < i < k ==> !WritesBank(n, i, q)
  }

  lemma {:induction false} HoldsSample(n: nat, exts: seq<seq<Level>>, q: nat, j: nat)
    requires n > 0 && q < n && Samples(exts, n) && LastSampledAt(n, |exts|, q, j)
    ensures HiddenBit(n, exts, q) == exts[j][q]
  {
    var k := |exts| - 1;
    if j == k {
    } else {
      HoldsSample(n, exts[..k], q, j);
    }
  }

  lemma {:induction false} HoldsHigh(n: nat, exts: seq<seq<Level>>, q: nat, j: nat)
    requires n > 0 && q < n && Samples(exts, n) && UnsampledSince(n, |exts|, q, j)
    ensures HiddenBit(n, exts, q) == High
  {
    var k := |exts| - 1;
    if j == k {
    } else {
      HoldsHigh(n, exts[..k], q, j);
    }
  }

  lemma RegisterParts(p: nat)
    ensures p == 32 * RegisterOf(p) + BitOf(p) && BitOf(p) < 32
  {
  }

  lemma BitParity(p: nat)
    ensures BitOf(p) % 2 == p % 2 && BitOf(p) < 32
  {
    RegisterParts(p);
    EvenPlus(16 * RegisterOf(p), BitOf(p));
  }

  lemma EvenPlus(q: nat, c: nat)
    ensures (2 * q + c) % 2 == c % 2
  {
  }

  /** The step that has sweep `r` and pin `p`. */
  function StepOf(n: nat, r: nat, p: nat): nat { r * n + p }

  lemma StepOfParts(n: nat, r: nat, p: nat)
    requires p < n
    ensures StepOf(n, r, p) / n == r && StepOf(n, r, p) % n == p
  {
    QuotientUnique(n, r, p);
  }

  /** The configuration of sweep `r`. */
  function ConfigOf(r: nat): Config { CONFIGS[r % 5] }

  lemma PreviousConfig(r: nat)
    requires r > 0
    ensures (r - 1) % 5 == if r % 5 == 0 then 4 else r % 5 - 1
  {
  }

  lemma GoverningOf(n: nat, r: nat, p: nat, q: nat)
    requires p < n && q < n
    ensures Governing(n, StepOf(n, r, p), q) ==
            if q < p then ConfigOf(r) else if r == 0 then AllOutH else ConfigOf(r - 1)
  {
    StepOfParts(n, r, p);
    var k := StepOf(n, r, p);
    if r > 0 {
      MultipleMonotone(1, r, n);
    }
    assert k < n <==> r == 0;
  }

  lemma NextSweep(n: nat, r: nat)
    ensures (r + 1) * n == r * n + n
  {
  }

  /** The last odd pin of the register that starts at pin `p`, if the register has one. */
  function LastOdd(n: nat, p: nat): (l: nat)
    requires BitOf(p) == 0 && p + 1 < n
    ensures p < l < n && l % 2 == 1 && l < p + 32
  {
    if p + 31 < n then p + 31 else if n % 2 == 0 then n - 1 else n - 2
  }

  lemma LastOddIsLast(n: nat, p: nat, x: nat)
    requires BitOf(p) == 0 && p + 1 < n && x < n
    ensures RegisterOf(x) == RegisterOf(p) && x % 2 == 1 ==> x <= LastOdd(n, p)
    ensures RegisterOf(LastOdd(n, p)) == RegisterOf(p)
  {
  }

  /** The earlier step whose sample the step of sweep `r` and pin `p` drives its pin with until it
      sets the value, if the pin was an input that had been sampled: in the all-low sweep the step
      before, for odd pins; in the odd and even sweeps two steps before, as long as that is in the
      same register; for the first pin of a register in the even sweep, the register's last odd pin
      in the sweep before. */
  function DecidingStep(n: nat, r: nat, p: nat): (j: Option<nat>)
    requires p < n
    ensures j.Some? ==> j.value < StepOf(n, r, p)
  {
    match ConfigOf(r)
    case AllOutL => if r > 0 && p % 2 == 1 then Some(StepOf(n, r, p - 1)) else None
    case AllOutH => None
    case AllIn => None
    case OddOutH => if p % 2 == 1 && BitOf(p) >= 3 then Some(StepOf(n, r, p - 2)) else None
    case EvenOutH => if r > 0 && p % 2 == 0 then DecidingInEven(n, r, p) else None
  }

  function DecidingInEven(n: nat, r: nat, p: nat): (j: Option<nat>)
    requires p < n && r > 0
    ensures j.Some? ==> j.value < StepOf(n, r, p)
  {
    if BitOf(p) >= 2 then Some(StepOf(n, r, p - 2))
    else if BitOf(p) == 0 && p + 1 < n then
      var x := LastOdd(n, p);
      SweepBefore(n, r, x, p);
      Some(StepOf(n, r - 1, x))
    else None
  }

  lemma SweepBefore(n: nat, r: nat, x: nat, p: nat)
    requires r > 0 && x < n
    ensures StepOf(n, r - 1, x) < StepOf(n, r, p)
  {
    NextSweep(n, r - 1);
  }

  lemma WritesAt(n: nat, r: nat, x: nat, q: nat)
    requires x < n
    ensures WritesBank(n, StepOf(n, r, x), q) <==>
              DirectionOf(ConfigOf(r), x) == Out && RegisterOf(x) == RegisterOf(q)
  {
    StepOfParts(n, r, x);
  }

  /** A few steps back in the same sweep the pin was an input, and only the step that drives its own
      pin `d` further back, in the same register, wrote since. */
  lemma EarlierInSweep(n: nat, r: nat, p: nat, d: nat)
    requires p < n && r > 0 && 1 <= d <= 2 && d <= p && RegisterOf(p - d) == RegisterOf(p)
    requires DirectionOf(ConfigOf(r - 1), p) == In && DirectionOf(ConfigOf(r), p - d) == Out
    requires d == 2 ==> DirectionOf(ConfigOf(r), p - 1) == In
    ensures LastSampledAt(n, StepOf(n, r, p), p, StepOf(n, r, p - d))
  {
    var j := StepOf(n, r, p - d);
    forall i | j <= i < StepOf(n, r, p)
      ensures DirectionOf(Governing(n, i, p), p) == In
      ensures WritesBank(n, i, p) <==> i == j
    {
      var x := i - r * n;
      GoverningOf(n, r, x, p);
      WritesAt(n, r, x, p);
    }
  }

  /** The first pin of a register in the even sweep: the last odd pin of the register, in the odd
      sweep before, wrote last. */
  lemma EarlierSweep(n: nat, r: nat, p: nat)
    requires p + 1 < n && BitOf(p) == 0 && ConfigOf(r) == OddOutH && ConfigOf(r + 1) == EvenOutH
    ensures LastSampledAt(n, StepOf(n, r + 1, p), p, StepOf(n, r, LastOdd(n, p)))
  {
    var j := StepOf(n, r, LastOdd(n, p));
    NextSweep(n, r);
    LastOddIsLast(n, p, LastOdd(n, p));
    forall i | j <= i < StepOf(n, r + 1, p)
      ensures DirectionOf(Governing(n, i, p), p) == In
      ensures WritesBank(n, i, p) <==> i == j
    {
      var y := i - r * n;
      if y < n {
        GoverningOf(n, r, y, p);
        WritesAt(n, r, y, p);
        LastOddIsLast(n, p, y);
      } else {
        GoverningOf(n, r + 1, y - n, p);
        WritesAt(n, r + 1, y - n, p);
      }
    }
  }

  /** The first odd pin of a register in the odd sweep was never sampled since it became an input. */
  lemma FirstOddUnsampled(n: nat, r: nat, p: nat)
    requires p < n && BitOf(p) == 1 && r > 0
    requires ConfigOf(r - 1) == AllOutH && ConfigOf(r) == AllIn && ConfigOf(r + 1) == OddOutH
    ensures UnsampledSince(n, StepOf(n, r + 1, p), p, StepOf(n, r, p))
  {
    NextSweep(n, r);
    GoverningOf(n, r, p, p);
    forall i | StepOf(n, r, p) < i < StepOf(n, r + 1, p) ensures !WritesBank(n, i, p) {
      var y := i - r * n;
      if y < n {
        WritesAt(n, r, y, p);
      } else {
        WritesAt(n, r + 1, y - n, p);
        if RegisterOf(y - n) == RegisterOf(p) { SameRegister(p, y - n); }
      }
    }
  }

  /** Below the first odd pin, its register has only an even one. */
  lemma SameRegister(p: nat, x: nat)
    requires BitOf(p) == 1 && x < p && RegisterOf(x) == RegisterOf(p)
    ensures x % 2 == 0
  {
    RegisterParts(p);
    RegisterParts(x);
    BitParity(x);
  }

  /** Nor was a pin that has its register to itself, in the even sweep. */
  lemma LonePinUnsampled(n: nat, r: nat, p: nat)
    requires p + 1 == n && BitOf(p) == 0 && r > 0
    requires ConfigOf(r - 1) == AllOutH && ConfigOf(r) == AllIn
    requires ConfigOf(r + 1) == OddOutH && ConfigOf(r + 2) == EvenOutH
    ensures UnsampledSince(n, StepOf(n, r + 2, p), p, StepOf(n, r, p))
  {
    NextSweep(n, r);
    NextSweep(n, r + 1);
    GoverningOf(n, r, p, p);
    forall i | StepOf(n, r, p) < i < StepOf(n, r + 2, p) ensures !WritesBank(n, i, p) {
      var y := i - r * n;
      if y < 2 * n {
        LonePinUnwritten(n, r + 1, y - n, p);
      } else {
        LonePinUnwritten(n, r + 2, y - 2 * n, p);
      }
    }
  }

  lemma LonePinUnwritten(n: nat, r: nat, x: nat, p: nat)
    requires p + 1 == n && BitOf(p) == 0 && x < n
    requires ConfigOf(r) == OddOutH || x != p
    ensures !WritesBank(n, StepOf(n, r, x), p)
  {
    WritesAt(n, r, x, p);
    AloneInRegister(p, x);
  }

  /** A register starts at an even pin. */
  lemma AloneInRegister(p: nat, x: nat)
    requires BitOf(p) == 0 && x <= p
    ensures RegisterOf(x) == RegisterOf(p) ==> x == p
    ensures p % 2 == 0
  {
    RegisterParts(p);
    RegisterParts(x);
    BitParity(p);
  }

  lemma TwoBack(p: nat)
    requires BitOf(p) >= 2
    ensures p >= 2 && RegisterOf(p - 2) == RegisterOf(p)
  {
    RegisterParts(p);
    QuotientUnique(32, RegisterOf(p), BitOf(p) - 2);
  }

  lemma DirectionsBack(c: Config, p: nat)
    requires p >= 2 && c == if p % 2 == 1 then OddOutH else EvenOutH
    ensures DirectionOf(c, p - 2) == Out && DirectionOf(c, p - 1) == In
  {
    assert (p - 2) % 2 == p % 2 && (p - 1) % 2 != p % 2;
  }

  lemma OneBack(p: nat)
    requires p % 2 == 1
    ensures RegisterOf(p - 1) == RegisterOf(p)
  {
    RegisterParts(p);
    BitParity(p);
    QuotientUnique(32, RegisterOf(p), BitOf(p) - 1);
  }

  /** In the last two sweeps a pin two places back was driven two steps ago, with an input between. */
  lemma TwoBackIsLast(n: nat, r: nat, p: nat)
    requires p < n && r > 0 && BitOf(p) >= 2
    requires DirectionOf(ConfigOf(r - 1), p) == In
    requires ConfigOf(r) == (if p % 2 == 1 then OddOutH else EvenOutH)
    ensures LastSampledAt(n, StepOf(n, r, p), p, StepOf(n, r, p - 2))
  {
    TwoBack(p);
    DirectionsBack(ConfigOf(r), p);
    EarlierInSweep(n, r, p, 2);
  }

  /** The sweeps go through the configurations in turn. */
  lemma SweepsBefore(r: nat)
    ensures ConfigOf(r) == AllOutL && r > 0 ==> ConfigOf(r - 1) == EvenOutH
    ensures ConfigOf(r) == AllOutH ==> r > 0 && ConfigOf(r - 1) == AllOutL
    ensures ConfigOf(r) == OddOutH ==> r > 1 && ConfigOf(r - 1) == AllIn && ConfigOf(r - 2) == AllOutH
    ensures ConfigOf(r) == EvenOutH ==>
              r > 2 && ConfigOf(r - 1) == OddOutH && ConfigOf(r - 2) == AllIn && ConfigOf(r - 3) == AllOutH
  {
    if r > 0 { PreviousConfig(r); }
    if r > 1 { PreviousConfig(r - 1); }
    if r > 2 { PreviousConfig(r - 2); }
  }

  /** Step `j` made the last value write in the pin's register since the pin became an input; or,
      without a `j`, there was none. */
  ghost predicate IsLastWrite(n: nat, k: nat, p: nat, j: Option<nat>)
    requires n > 0
  {
    match j
    case Some(i) => LastSampledAt(n, k, p, i)
    case None => exists i :: 0 <= i < k && UnsampledSince(n, k, p, i)
  }

  lemma LastWriteInAllLow(n: nat, r: nat, p: nat)
    requires p < n && r > 0 && ConfigOf(r) == AllOutL && DirectionOf(ConfigOf(r - 1), p) == In
    requires p % 2 == 1
    ensures IsLastWrite(n, StepOf(n, r, p), p, DecidingStep(n, r, p))
  {
    OneBack(p);
    EarlierInSweep(n, r, p, 1);
  }

  lemma LastWriteInOdd(n: nat, r: nat, p: nat)
    requires p < n && r > 1 && p % 2 == 1
    requires ConfigOf(r) == OddOutH && ConfigOf(r - 1) == AllIn && ConfigOf(r - 2) == AllOutH
    ensures IsLastWrite(n, StepOf(n, r, p), p, DecidingStep(n, r, p))
  {
    BitParity(p);
    if BitOf(p) >= 3 {
      TwoBackIsLast(n, r, p);
    } else {
      assert BitOf(p) == 1;
      FirstOddUnsampled(n, r - 1, p);
    }
  }

  lemma LastWriteInEven(n: nat, r: nat, p: nat)
    requires p < n && r > 2 && p % 2 == 0 && ConfigOf(r) == EvenOutH
    requires ConfigOf(r - 1) == OddOutH && ConfigOf(r - 2) == AllIn && ConfigOf(r - 3) == AllOutH
    ensures IsLastWrite(n, StepOf(n, r, p), p, DecidingStep(n, r, p))
  {
    BitParity(p);
    if BitOf(p) >= 2 {
      TwoBackIsLast(n, r, p);
    } else if p + 1 < n {
      EarlierSweep(n, r - 1, p);
    } else {
      LonePinUnsampled(n, r - 2, p);
    }
  }

  /** The deciding step is what its name says: for an input about to be driven, the last value write
      in its register since it became an input; and without one there was no such write. */
  lemma DecidingStepIsLastWrite(n: nat, r: nat, p: nat)
    requires p < n && r > 0
    requires DirectionOf(ConfigOf(r), p) == Out && DirectionOf(ConfigOf(r - 1), p) == In
    ensures IsLastWrite(n, StepOf(n, r, p), p, DecidingStep(n, r, p))
  {
    SweepsBefore(r);
    match ConfigOf(r)
    case AllOutL =>
      LastWriteInAllLow(n, r, p);
    case AllOutH =>
    case AllIn =>
    case OddOutH =>
      LastWriteInOdd(n, r, p);
    case EvenOutH =>
      LastWriteInEven(n, r, p);
  }

  ghost predicate DrivesLow(p: Pins, q: nat)
    requires q < |p.dir| && p.Valid(|p.dir|)
  {
    p.dir[q] == Out && p.latch[q] == Low
  }

  /** The deciding step exists and sampled the pin low. */
  ghost predicate SampledLow(n: nat, exts: seq<seq<Level>>, r: nat, p: nat)
    requires p < n && Samples(exts, n) && |exts| == StepOf(n, r, p)
  {
    var j := DecidingStep(n, r, p);
    j.Some? && exts[j.value][p] == Low
  }

  lemma HiddenLow(n: nat, exts: seq<seq<Level>>, r: nat, p: nat)
    requires p < n && r > 0 && Samples(exts, n) && |exts| == StepOf(n, r, p)
    requires DirectionOf(ConfigOf(r), p) == Out && DirectionOf(ConfigOf(r - 1), p) == In
    ensures HiddenBit(n, exts, p) == Low <==> SampledLow(n, exts, r, p)
  {
    DecidingStepIsLastWrite(n, r, p);
    match DecidingStep(n, r, p)
    case Some(j) =>
      HoldsSample(n, exts, p, j);
    case None =>
      var j :| 0 <= j < |exts| && UnsampledSince(n, |exts|, p, j);
      HoldsHigh(n, exts, p, j);
  }

  /** The level that the pin's output bit holds before its step, and what decides it. */
  lemma LowBefore(n: nat, exts: seq<seq<Level>>, r: nat, p: nat)
    requires p < n && Samples(exts, n) && |exts| == StepOf(n, r, p) && DirectionOf(ConfigOf(r), p) == Out
    ensures var before := if r == 0 then AllOutH else ConfigOf(r - 1);
            (if DirectionOf(before, p) == Out then LevelOf(before) == Low else HiddenBit(n, exts, p) == Low) <==>
            ConfigOf(r) == AllOutH || SampledLow(n, exts, r, p)
  {
    SweepsBefore(r);
    if r > 0 && DirectionOf(ConfigOf(r - 1), p) == In {
      HiddenLow(n, exts, r, p);
    }
  }

  /** Main result: between its two register writes the step of sweep `r` and pin `p` drives the pin
      low if and only if it is in the all-high sweep, or one earlier sample decides and was low. Step
      `k` is that of sweep `k / n` and pin `k % n`. */
  lemma MidStepLow(start: Pins, n: nat, exts: seq<seq<Level>>, r: nat, p: nat)
    requires p < n && AllOutHigh(start, n) && Samples(exts, n) && |exts| == StepOf(n, r, p)
    ensures var s := Run(start, n, exts);
            && s.pin == p && CONFIGS[s.config] == ConfigOf(r)
            && (DrivesLow(MidStep(s, n), p) <==> ConfigOf(r) == AllOutH || SampledLow(n, exts, r, p))
  {
    RunFollows(start, n, exts);
    StepOfParts(n, r, p);
    GoverningOf(n, r, p, p);
    assert Follows(Run(start, n, exts).pins, Governing(n, |exts|, p), p);
    HiddenBits(start, n, exts, p);
    if DirectionOf(ConfigOf(r), p) == Out {
      LowBefore(n, exts, r, p);
    } else {
      UndrivenUndecided(n, r, p);
    }
  }

  /** The other pins keep the levels their configurations gave them: of these only the all-low one
      drives low. */
  lemma MidStepOthers(start: Pins, n: nat, exts: seq<seq<Level>>, q: nat)
    requires n > 0 && AllOutHigh(start, n) && Samples(exts, n) && q < n && q != |exts| % n
    ensures DrivesLow(MidStep(Run(start, n, exts), n), q) <==> Governing(n, |exts|, q) == AllOutL
  {
    RunFollows(start, n, exts);
    assert Follows(Run(start, n, exts).pins, Governing(n, |exts|, q), q);
  }

  lemma UndrivenUndecided(n: nat, r: nat, p: nat)
    requires p < n && DirectionOf(ConfigOf(r), p) == In
    ensures ConfigOf(r) != AllOutH && DecidingStep(n, r, p).None?
  {
  }

  /** It happens in the odd sweep: with four pins held low from outside, the sixteenth step first
      drives pin 3 low. */
  lemma MidStepLowInOddSweep(start: Pins, exts: seq<seq<Level>>)
    requires AllOutHigh(start, 4) && exts == seq(15, k => [Low, Low, Low, Low])
    ensures Samples(exts, 4)
    ensures var s := Run(start, 4, exts);
            && CONFIGS[s.config] == OddOutH && s.pin == 3
            && DrivesLow(MidStep(s, 4), 3)
  {
    MidStepLow(start, 4, exts, 3, 3);
  }

  /** And in the even sweep: three steps later it drives pin 2 low. */
  lemma MidStepLowInEvenSweep(start: Pins, exts: seq<seq<Level>>)
    requires AllOutHigh(start, 4) && exts == seq(18, k => [Low, Low, Low, Low])
    ensures Samples(exts, 4)
    ensures var s := Run(start, 4, exts);
            && CONFIGS[s.config] == EvenOutH && s.pin == 2
            && DrivesLow(MidStep(s, 4), 2)
  {
    MidStepLow(start, 4, exts, 4, 2);
  }

  lemma RecentlyGoverned(n: nat, k: nat, r: nat, p: nat)
    requires p < n && StepOf(n, r, p) < k <= StepOf(n, r, p) + n
    ensures Governing(n, k, p) == ConfigOf(r)
  {
    var y := k - r * n;
    NextSweep(n, r);
    if y < n {
      GoverningOf(n, r, y, p);
    } else {
      GoverningOf(n, r + 1, y - n, p);
    }
  }

  /** The pin that a step sets keeps following that step's configuration until the cursor is back,
      so a reader may lag by up to a whole sweep. */
  lemma RecentlySetFollows(start: Pins, n: nat, exts: seq<seq<Level>>, r: nat, p: nat)
    requires p < n && AllOutHigh(start, n) && Samples(exts, n)
    requires StepOf(n, r, p) < |exts| <= StepOf(n, r, p) + n
    ensures Follows(Run(start, n, exts).pins, ConfigOf(r), p)
  {
    RecentlyGoverned(n, |exts|, r, p);
    RunFollows(start, n, exts);
    assert Follows(Run(start, n, exts).pins, Governing(n, |exts|, p), p);
  }

  // ----- the operators

  class GpioSetOp {
    const gpio: Gpio
    var pin: nat
    var testConfig: nat

    ghost predicate Valid()
      reads this, gpio
    {
      gpio.Valid() && testConfig < 5 && if gpio.count == 0 then pin == 0 else pin < gpio.count
    }

    ghost function State(): Sweep
      reads this, gpio
    {
      Sweep(gpio.pins, pin, testConfig)
    }

    constructor (gpio: Gpio)
      requires gpio.Valid()
      ensures Valid() && this.gpio == gpio && pin == 0 && testConfig == 0
    {
      this.gpio := gpio;
      this.pin, this.testConfig := 0, 0;
    }

    /** Sets every pin to output, high; the start of a run. */
    method Setup(samples: seq<seq<Level>>)
      requires Valid() && |samples| == gpio.count && Samples(samples, gpio.count)
      modifies gpio
      ensures Valid() && AllOutHigh(gpio.pins, gpio.count)
    {
      for i := 0 to gpio.count
        invariant Valid()
        invariant forall q :: 0 <= q < i ==> gpio.pins.dir[q] == Out && gpio.pins.latch[q] == High
      {
        var _ := gpio.SetDirection(i, Out);
        var _ := gpio.SetValue(i, High, samples[i]);
      }
    }

    /** One step: changes the pin at the cursor, reports it, and moves on. An access is refused only
        on a board without pins, which nothing changes. */
    method Compute(external: seq<Level>) returns (done: bool, changed: nat, config: nat)
      requires Valid() && Sampled(external, gpio.count)
      modifies this, gpio
      ensures Valid() && done == (gpio.count > 0)
      ensures State() == if done then Step(old(State()), gpio.count, external) else old(State())
      ensures changed == old(pin) && config == old(testConfig)
      ensures done ==> Follows(gpio.pins, CONFIGS[config], changed)
    {
      changed, config := pin, testConfig;
      done := Apply(external);
      if !done { return; }
      pin := pin + 1;
      pin := pin % gpio.count;
      if pin == 0 {
        testConfig := testConfig + 1;
        testConfig := testConfig % |CONFIGS|;
      }
    }

    /** The accesses of a step; the first that is refused ends it. */
    method Apply(external: seq<Level>) returns (ok: bool)
      requires Valid() && Sampled(external, gpio.count)
      modifies gpio
      ensures Valid() && ok == (gpio.count > 0)
      ensures gpio.pins == if ok then Applied(old(State()), gpio.count, external) else old(gpio.pins)
    {
      if CONFIGS[testConfig] == AllOutL {
        ok := gpio.SetDirection(pin, Out);
        if ok { ok := gpio.SetValue(pin, Low, external); }
      } else if CONFIGS[testConfig] == AllOutH {
        ok := gpio.SetDirection(pin, Out);
        if ok { ok := gpio.SetValue(pin, High, external); }
      } else if CONFIGS[testConfig] == AllIn {
        ok := gpio.SetDirection(pin, In);
      } else if CONFIGS[testConfig] == OddOutH {
        if pin % 2 == 1 {
          ok := gpio.SetDirection(pin, Out);
          if ok { ok := gpio.SetValue(pin, High, external); }
        } else {
          ok := gpio.SetDirection(pin, In);
        }
      } else {
        if pin % 2 == 1 {
          ok := gpio.SetDirection(pin, In);
        } else {
          ok := gpio.SetDirection(pin, Out);
          if ok { ok := gpio.SetValue(pin, High, external); }
        }
      }
    }
  }

  /** Reads back the pin it is told was changed. */
  class GpioGetOp {
    const gpio: Gpio

    constructor (gpio: Gpio)
      ensures this.gpio == gpio
    {
      this.gpio := gpio;
    }

    /** Fails for a pin the board lacks; otherwise what it reads is the pin's direction and level. */
    method Compute(pin: nat, external: seq<Level>) returns (seen: Option<(Direction, Level)>)
      requires gpio.Valid() && Sampled(external, gpio.count)
      ensures seen.None? <==> pin >= gpio.count
      ensures seen.Some? && gpio.pins.dir[pin] == In ==> seen.value == (In, external[pin])
      ensures seen.Some? && gpio.pins.dir[pin] == Out ==> seen.value == (Out, gpio.pins.latch[pin])
    {
      var ok, direction := gpio.GetDirection(pin);
      if !ok { return None; }
      var ok', value := gpio.GetValue(pin, external);
      if !ok' { return None; }
      seen := Some((direction, value));
    }
  }

  /** A step and the read that validates it: the reader sees the direction the configuration asks
      for, and on an output its level. */
  method StepAndRead(setter: GpioSetOp, get: GpioGetOp, external: seq<Level>, later: seq<Level>)
    returns (seen: Option<(Direction, Level)>)
    requires setter.Valid() && get.gpio == setter.gpio
    requires Sampled(external, setter.gpio.count) && Sampled(later, setter.gpio.count)
    modifies setter, setter.gpio
    ensures setter.Valid() && (seen.Some? <==> setter.gpio.count > 0)
    ensures seen.Some? ==> setter.State() == Step(old(setter.State()), setter.gpio.count, external)
    ensures var c, p := CONFIGS[old(setter.testConfig)], old(setter.pin);
            seen.Some? ==>
              && seen.value.0 == DirectionOf(c, p)
              && seen.value.1 == if DirectionOf(c, p) == Out then LevelOf(c) else later[p]
  {
    var done, changed, config := setter.Compute(external);
    seen := None;
    if done { seen := get.Compute(changed, later); }
  }
}
