/** The board's GPIO pins: a direction bit and an output bit per pin, in 32-pin registers. */
module GpioBoard {

  datatype Direction = In | Out
  datatype Level = Low | High

  /** The 32-pin register a pin belongs to, and its bit there. */
  function RegisterOf(pin: nat): nat { pin / 32 }
  function BitOf(pin: nat): nat { pin % 32 }

  /** The register contents, pin by pin. */
  datatype Pins = Pins(dir: seq<Direction>, latch: seq<Level>) {
    ghost predicate Valid(n: nat) { |dir| == n && |latch| == n }
  }

  ghost predicate Sampled(external: seq<Level>, n: nat) { |external| == n }

  /** What the status register reads: the driven level of an output, the outside level of an input. */
  function Status(p: Pins, external: seq<Level>, pin: nat): Level
    requires pin < |p.dir| && p.Valid(|p.dir|) && Sampled(external, |p.dir|)
  {
    if p.dir[pin] == Out then p.latch[pin] else external[pin]
  }

  /** A value write copies the status of the whole register into the output bits, with one changed. */
  function WithValue(p: Pins, external: seq<Level>, pin: nat, v: Level): (r: Pins)
    requires pin < |p.dir| && p.Valid(|p.dir|) && Sampled(external, |p.dir|)
    ensures r.Valid(|p.dir|) && r.dir == p.dir
    ensures r.latch[pin] == v
    ensures forall q :: 0 <= q < |p.dir| && q != pin ==>
              r.latch[q] == if RegisterOf(q) == RegisterOf(pin) then Status(p, external, q) else p.latch[q]
  {
    p.(latch := seq(|p.dir|, q requires 0 <= q < |p.dir| =>
      if q == pin then v else if RegisterOf(q) == RegisterOf(pin) then Status(p, external, q) else p.latch[q]))
  }

  function WithDirection(p: Pins, pin: nat, d: Direction): (r: Pins)
    requires pin < |p.dir|
  {
    p.(dir := p.dir[pin := d])
  }

  /** The registers and their accessors. An access to a pin the board lacks, or a value write to an
      input, is refused. */
  class Gpio {
    const count: nat
    var pins: Pins

    ghost predicate Valid()
      reads this
    {
      pins.Valid(count)
    }

    constructor (pins: Pins)
      requires pins.Valid(|pins.dir|)
      ensures Valid() && count == |pins.dir| && this.pins == pins
    {
      this.count := |pins.dir|;
      this.pins := pins;
    }

    method SetDirection(pin: nat, d: Direction) returns (ok: bool)
      requires Valid()
      modifies this
      ensures Valid() && ok == (pin < count)
      ensures pins == if ok then WithDirection(old(pins), pin, d) else old(pins)
    {
      ok := pin < count;
      if ok { pins := pins.(dir := pins.dir[pin := d]); }
    }

    method SetValue(pin: nat, v: Level, external: seq<Level>) returns (ok: bool)
      requires Valid() && Sampled(external, count)
      modifies this
      ensures Valid() && ok == (pin < count && old(pins).dir[pin] == Out)
      ensures pins == if ok then WithValue(old(pins), external, pin, v) else old(pins)
    {
      ok := pin < count && pins.dir[pin] == Out;
      if ok {
        var latch := pins.latch;
        for q := 0 to count
          invariant |latch| == count
          invariant forall k :: 0 <= k < count ==>
                      latch[k] == if k < q && RegisterOf(k) == RegisterOf(pin) then Status(pins, external, k)
                                  else pins.latch[k]
        {
          if RegisterOf(q) == RegisterOf(pin) { latch := latch[q := Status(pins, external, q)]; }
        }
        latch := latch[pin := v];
        assert latch == WithValue(pins, external, pin, v).latch;
        pins := pins.(latch := latch);
      }
    }

    method GetDirection(pin: nat) returns (ok: bool, d: Direction)
      requires Valid()
      ensures ok == (pin < count) && (ok ==> d == pins.dir[pin])
    {
      ok := pin < count;
      d := if ok then pins.dir[pin] else In;
    }

    method GetValue(pin: nat, external: seq<Level>) returns (ok: bool, v: Level)
      requires Valid() && Sampled(external, count)
      ensures ok == (pin < count) && (ok ==> v == Status(pins, external, pin))
    {
      ok := pin < count;
      v := if ok then Status(pins, external, pin) else Low;
    }
  }
}
