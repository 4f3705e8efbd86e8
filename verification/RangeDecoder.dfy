/**
  The range decoder of core/src/tq_ac.c, total on every byte string: `code` is
  a 32-bit register that wraps, and reads past the end give zeroes.
 */
module RangeDecoder {
  import opened ByteStrings
  import opened Intervals
  import opened Words
  import opened RangeEncoder

  /** `taken` counts the bytes consumed, real or past the end. */
  datatype Dec = Dec(code: nat, range: nat, taken: nat) {
    predicate Normal() {
      TOP <= range < U32 && code < U32
    }
  }

  function DecStart(b: seq<byte>): (d: Dec)
    ensures d.Normal()
  {
    WindowBound(b, 4);
    Pow256Values();
    Dec(Window(b, 4), U32 - 1, 4)
  }

  /** The first four bytes are loaded without losing one. */
  lemma LoadNext(b: seq<byte>, i: nat)
    requires i < 4
    ensures Window(b, i + 1) == Window(b, i) * 256 % U32 + At(b, i)
  {
    WindowBound(b, i);
    Pow256Values();
  }

  function Target(d: Dec, tot: nat): (t: nat)
    requires d.Normal() && 1 <= tot <= TOT
    ensures t < tot
  {
    DivAtLeast(d.range, tot, 256);
    var t := d.code / (d.range / tot);
    if t >= tot then tot - 1 else t
  }

  /** What the loop of tq_ac_dec_update does: shift in stream bytes until the range is back above 2^24. */
  function Refill(b: seq<byte>, d: Dec): (r: Dec)
    requires 0 < d.range < U32 && d.code < U32
    ensures r.Normal()
    decreases TOP - d.range
  {
    if d.range >= TOP then d
    else Refill(b, Dec(d.code * 256 % U32 + At(b, d.taken), d.range * 256, d.taken + 1))
  }

  /** Remove the symbol's slice: the divisor is at least 256 and the subtraction stays non-negative, for any input. */
  function Consume(d: Dec, s: Sym): (r: Dec)
    requires d.Normal() && s.Codeable() && s.cum <= Target(d, s.tot)
    ensures s.cum * (d.range / s.tot) <= d.code && r.code < U32
    ensures 256 <= r.range <= d.range && r.taken == d.taken
  {
    NoUnderflow(d, s);
    hide Target, Sym.Codeable;
    Dec(d.code - s.cum * (d.range / s.tot), d.range / s.tot * s.freq, d.taken)
  }

  /** The bound on `cum` is what the caller must establish so that the subtraction cannot go below zero. */
  function Update(b: seq<byte>, d: Dec, s: Sym): (r: Dec)
    requires d.Normal() && s.Codeable() && s.cum <= Target(d, s.tot)
    ensures r.Normal()
  {
    Refill(b, Consume(d, s))
  }

  /** For any input at all the divisor is at least 256 and the subtraction stays non-negative. */
  lemma NoUnderflow(d: Dec, s: Sym)
    requires d.Normal() && s.Codeable() && s.cum <= Target(d, s.tot)
    ensures 256 <= d.range / s.tot
    ensures 0 <= s.cum * (d.range / s.tot) <= d.code
    ensures 256 <= d.range / s.tot * s.freq <= d.range
  {
    SliceBounds(d.range, s);
    var r := d.range / s.tot;
    QuotientTimes(d.code, r, s.cum);
  }

  lemma QuotientTimes(a: nat, b: nat, q: nat)
    requires 0 < b && q <= a / b
    ensures q * b <= a
  {
    DivAtMost(a, b);
    MulMono(b, q, a / b);
  }

  /** Whatever the bytes and the tables are, a symbol costs at most two refills. */
  lemma RefillAtMostTwo(b: seq<byte>, d: Dec, s: Sym)
    requires d.Normal() && s.Codeable() && s.cum <= Target(d, s.tot)
    ensures d.taken <= Update(b, d, s).taken <= d.taken + 2
  {
    RefillWithin(b, Consume(d, s), 2);
  }

  lemma {:induction false} RefillWithin(b: seq<byte>, d: Dec, k: nat)
    requires 0 < d.range < U32 && d.code < U32 && k <= 2
    requires d.range >= (if k == 0 then TOP else if k == 1 then 0x1_0000 else 0x100)
    ensures d.taken <= Refill(b, d).taken <= d.taken + k
    decreases k
  {
    if d.range < TOP {
      var e := Dec(d.code * 256 % U32 + At(b, d.taken), d.range * 256, d.taken + 1);
      assert Refill(b, d) == Refill(b, e);
      hide Refill;
      RefillWithin(b, e, k - 1);
    }
  }

  lemma QuotientBounds(code: nat, range: nat, tot: nat)
    requires TOP <= range && 1 <= tot <= TOT
    ensures 256 <= range / tot <= range && 0 <= code / (range / tot) <= code
  {
    DivAtLeast(range, tot, 256);
    DivAtMost(range, tot);
    DivAtMost(code, range / tot);
  }

  class Decoder {
    const buf: array<byte>
    const len: nat
    var pos: nat
    var range: u32
    var code: u32
    var r: u32
    var starved: bool

    ghost var taken: nat

    ghost predicate Valid()
      reads this, buf
    {
      len <= buf.Length && pos == Min(taken, len) && State().Normal()
    }

    ghost function Bytes(): seq<byte>
      requires len <= buf.Length
      reads this, buf
    {
      buf[..len]
    }

    ghost function State(): Dec
      reads this
    {
      Dec(code, range, taken)
    }

    constructor (input: array<byte>, n: nat)
      requires n <= input.Length
      ensures Valid() && buf == input && len == n
      ensures State() == DecStart(input[..n]) && !starved
    {
      buf, len := input, n;
      pos, range, code, r, starved := 0, 0xFFFF_FFFF, 0, 0, false;
      taken := 0;
      new;
      for i := 0 to 4
        invariant taken == i && pos == Min(i, n) && buf == input && len == n && range == U32 - 1
        invariant code == Window(input[..n], i) && !starved
      {
        hide Window;
        LoadNext(input[..n], i);
        code := code * 256 % U32 + (if pos < len then buf[pos] else 0);
        pos := if pos < len then pos + 1 else pos;
        taken := taken + 1;
      }
    }

    method Get() returns (x: byte)
      requires len <= buf.Length && pos == Min(taken, len)
      modifies this`pos, this`starved, this`taken
      ensures pos == Min(taken, len) && taken == old(taken) + 1
      ensures x == At(Bytes(), old(taken))
      ensures starved == (old(starved) || old(taken) >= len)
    {
      if pos < len {
        x := buf[pos];
        pos := pos + 1;
      } else {
        starved := true;
        x := 0;
      }
      taken := taken + 1;
    }

    method DecTarget(tot: u32) returns (t: u32)
      requires Valid() && 1 <= tot <= TOT
      modifies this`r
      ensures Valid() && t == Target(State(), tot) && r == range / tot
    {
      hide Refill, At, Window;
      QuotientBounds(code, range, tot);
      var q := range / tot;
      t := code / q;
      if t >= tot {
        t := tot - 1;
      }
      r := q;
    }

    method DecUpdate(cum: u32, freq: u32, ghost tot: u32)
      requires Valid() && Sym(cum, freq, tot).Codeable()
      requires cum <= Target(State(), tot) && r == range / tot
      modifies this
      ensures Valid() && State() == Update(Bytes(), old(State()), Sym(cum, freq, tot))
    {
      ghost var s, b, d0 := Sym(cum, freq, tot), Bytes(), State();
      ghost var d1 := Consume(d0, s);
      code, range := code - cum * r, r * freq;
      assert State() == d1;
      DrainShifts(b, d1);
    }

    /** Shift stream bytes in until the range is back above 2^24. */
    method DrainShifts(ghost b: seq<byte>, ghost d1: Dec)
      requires len <= buf.Length && pos == Min(taken, len) && b == Bytes()
      requires State() == d1 && 0 < range
      modifies this
      ensures Valid() && State() == Refill(b, d1)
    {
      while range < TOP
        invariant 0 < range && pos == Min(taken, len) && Bytes() == b
        invariant Refill(b, State()) == Refill(b, d1)
        decreases TOP - range
      {
        var x := Get();
        code := code * 256 % U32 + x;
        range := range * 256;
      }
    }
  }
}
