/**
  The range encoder of core/src/tq_ac.c: a 33-bit `low`, a 32-bit `range`, and
  carries deferred through a cache byte and a run of pending 0xFFs.

  The ghost interval `iv` is what unbounded arithmetic would have computed;
  Valid() says the machine denotes it exactly, so no carry is ever lost.
 */
module RangeEncoder {
  import opened ByteStrings
  import opened Intervals
  import opened Words

  const CARRY_LIMIT: nat := 0x2_0000_0000

  function Min(a: nat, b: nat): nat { if a < b then a else b }

  /** The bytes decided so far, with the deferred ones spelled as if no carry came. */
  function Deferred(stream: seq<byte>, primed: bool, cache: byte, pending: nat): seq<byte> {
    stream + (if primed then [cache] else []) + Repeat(255, pending)
  }

  /**
    Decided bytes and `low` together spell `exact`, and the interval that
    starts there and is `width` wide can carry at most once, and not at all
    into a cache byte that would wrap or before there is one.
   */
  ghost predicate Spells(stream: seq<byte>, primed: bool, cache: byte, pending: nat,
                         low: nat, width: nat, exact: nat, shifts: nat) {
    && (!primed ==> stream == [])
    && low + width <= CARRY_LIMIT
    && (!primed || cache == 255 ==> low + width <= U32)
    && |Deferred(stream, primed, cache, pending)| == shifts
    && Val(Deferred(stream, primed, cache, pending)) * U32 + low == exact
  }

  /** The bytes that a carry decision releases: cache and pending run, each bumped by `carry`. */
  function Released(primed: bool, cache: byte, pending: nat, carry: nat): seq<byte> {
    (if primed then [(cache + carry) % 256] else []) + Repeat((255 + carry) % 256, pending)
  }

  lemma ReleasedValue(stream: seq<byte>, primed: bool, cache: byte, pending: nat, carry: nat)
    requires carry <= 1 && (!primed ==> stream == [])
    requires carry == 1 ==> primed && cache < 255
    ensures Val(stream + Released(primed, cache, pending, carry))
         == Val(Deferred(stream, primed, cache, pending)) + carry
    ensures |stream + Released(primed, cache, pending, carry)|
         == |Deferred(stream, primed, cache, pending)|
  {
    if carry == 1 {
      CarryRipples(stream, cache, pending);
      assert stream + Released(primed, cache, pending, 1)
          == stream + [cache + 1] + Repeat(0, pending);
    } else {
      assert stream + Released(primed, cache, pending, 0)
          == Deferred(stream, primed, cache, pending);
    }
  }

  function CarryOf(low: nat): nat { low / U32 }
  function TopByte(low: nat): byte { low / TOP % 256 }
  function Remaining(low: nat): u32 { low % U32 * 256 % U32 }

  /** The top byte can be settled: a carry arrived, or no later one can pass through it. */
  predicate Decided(low: nat) {
    CarryOf(low) != 0 || low % U32 < 0xFF00_0000
  }

  lemma ShiftFacts(low: nat)
    ensures low % TOP == 0 ==> Remaining(low) == 0
    ensures low == 0 ==> Decided(low) && TopByte(low) == 0
  {
    if low % TOP == 0 {
      assert low == low / TOP * TOP;
      assert low * 256 == low / TOP * U32;
      assert low % U32 * 256 % U32 == 0;
    }
  }

  /** Shifting with a decided top byte: carry resolved, top byte becomes the cache. */
  lemma ShiftDecided(stream: seq<byte>, primed: bool, cache: byte, pending: nat,
                     low: nat, width: nat, exact: nat, shifts: nat)
    requires Spells(stream, primed, cache, pending, low, width, exact, shifts)
    requires 0 < width <= TOP
    requires Decided(low)
    ensures CarryOf(low) <= 1
    ensures CarryOf(low) == 1 ==> primed && cache < 255
    ensures Spells(stream + Released(primed, cache, pending, CarryOf(low)), true,
                   TopByte(low), 0, Remaining(low), width * 256, exact * 256, shifts + 1)
  {
    var carry, top := low / U32, low / TOP % 256;
    var out := stream + Released(primed, cache, pending, carry);
    assert low < CARRY_LIMIT;
    ReleasedValue(stream, primed, cache, pending, carry);
    assert Deferred(out, true, top, 0) == out + [top];
    ValSnoc(out, top);
    SplitLow(low);
  }

  /** Shifting with a top byte of exactly 0xFF and no carry: one more pending byte. */
  lemma ShiftUndecided(stream: seq<byte>, primed: bool, cache: byte, pending: nat,
                       low: nat, width: nat, exact: nat, shifts: nat)
    requires Spells(stream, primed, cache, pending, low, width, exact, shifts)
    requires 0 < width <= TOP
    requires !Decided(low)
    ensures Spells(stream, primed, cache, pending + 1, Remaining(low), width * 256, exact * 256, shifts + 1)
  {
    assert Deferred(stream, primed, cache, pending + 1)
        == Deferred(stream, primed, cache, pending) + [255];
    ValSnoc(Deferred(stream, primed, cache, pending), 255);
    SplitLow(low);
  }

  lemma SplitLow(low: nat)
    requires low < CARRY_LIMIT
    ensures low == low / U32 * U32 + low / TOP % 256 * TOP + low % TOP
    ensures low % U32 == low / TOP % 256 * TOP + low % TOP
    ensures low % U32 * 256 % U32 == low % TOP * 256
  {
    var c, t, m := low / U32, low / TOP % 256, low % TOP;
    assert low / TOP / 256 == low / U32;
    assert low == low / TOP * TOP + m;
    assert low / TOP == low / TOP / 256 * 256 + t;
    assert (t * TOP + m) * 256 == t * U32 + m * 256;
    assert (m * 256 + t * U32) % U32 == m * 256;
  }

  lemma RoundUpOffset(d: nat, low: nat)
    ensures RoundUp(d * U32 + low) == d * U32 + RoundUp(low)
  {
    var a := low + (TOP - 1);
    assert d * U32 + a == d * 256 * TOP + a;
    assert (d * 256 * TOP + a) / TOP == d * 256 + a / TOP;
  }

  /** Rounding up stays inside the interval, and keeps the spelling. */
  lemma RoundedSpells(stream: seq<byte>, primed: bool, cache: byte, pending: nat, low: nat, iv: Interval)
    requires iv.Normal() && Spells(stream, primed, cache, pending, low, iv.range, iv.low, iv.shifts)
    ensures low <= RoundUp(low) < low + iv.range && RoundUp(low) % TOP == 0
    ensures Spells(stream, primed, cache, pending, RoundUp(low), 1, RoundUp(iv.low), iv.shifts)
  {
    RoundUpInside(iv);
    RoundUpOffset(Val(Deferred(stream, primed, cache, pending)), low);
    SpellsInside(stream, primed, cache, pending, low, iv.range, iv.low, iv.shifts, RoundUp(low) - low, 1);
  }

  function Shifted(x: nat, n: nat): nat {
    if n == 0 then x else Shifted(x, n - 1) * 256
  }

  /** Moving up inside the interval keeps the spelling and cannot overflow. */
  lemma SpellsInside(stream: seq<byte>, primed: bool, cache: byte, pending: nat,
                     low: nat, width: nat, exact: nat, shifts: nat, a: nat, w: nat)
    requires Spells(stream, primed, cache, pending, low, width, exact, shifts) && a + w <= width
    ensures low + a <= CARRY_LIMIT
    ensures Spells(stream, primed, cache, pending, low + a, w, exact + a, shifts)
  {
  }

  lemma FlushedDigits(stream: seq<byte>, whole: nat, shifts: nat)
    requires Spells(stream, true, 0, 0, 0, 1, Shifted(whole, 5), shifts + 5)
    ensures stream == Digits(whole, shifts + 4)
  {
    assert Deferred(stream, true, 0, 0) == stream + [0];
    ValSnoc(stream, 0);
    assert Shifted(whole, 1) == whole * 256;
    assert Shifted(whole, 3) == whole * 256 * 256 * 256;
    assert Shifted(whole, 5) == whole * U32 * 256;
    DigitsVal(stream);
  }

  class Encoder {
    const buf: array<byte>
    var len: nat
    var low: u64
    var range: u32
    var cache: byte
    var pending: nat
    var primed: bool
    var finished: bool
    var overflow: bool

    ghost var stream: seq<byte>  // every byte put, whether or not it fitted the buffer
    ghost var iv: Interval       // the exact interval

    /** The buffer holds as much of the stream as fits, and overflow says whether that is all. */
    ghost predicate Buffered()
      reads this, buf
    {
      && len == Min(|stream|, buf.Length)
      && buf[..len] == stream[..len]
      && overflow == (|stream| > buf.Length)
    }

    ghost predicate Denotes(width: nat, exact: nat, shifts: nat)
      reads this
    {
      Spells(stream, primed, cache, pending, low, width, exact, shifts)
    }

    ghost predicate Valid()
      reads this, buf
    {
      && !finished
      && Buffered()
      && iv.Normal() && range == iv.range
      && Denotes(range, iv.low, iv.shifts)
    }

    constructor (out: array<byte>)
      ensures Valid() && buf == out && iv == WHOLE && stream == []
    {
      buf := out;
      len, low, range, cache, pending := 0, 0, 0xFFFF_FFFF, 0, 0;
      primed, finished, overflow := false, false, false;
      stream, iv := [], WHOLE;
      new;
      assert Deferred([], false, 0, 0) == [];
    }

    method Put(x: byte)
      requires Buffered()
      modifies this`len, this`overflow, this`stream, buf
      ensures Buffered() && stream == old(stream) + [x]
    {
      if len < buf.Length {
        buf[len] := x;
        len := len + 1;
      } else {
        overflow := true;
      }
      stream := stream + [x];
    }

    /** Put out everything deferred, with the carry now known. */
    method Release(carry: byte)
      requires Buffered()
      modifies this`len, this`pending, this`overflow, this`stream, buf
      ensures Buffered() && pending == 0
      ensures stream == old(stream) + Released(primed, cache, old(pending), carry)
    {
      if primed {
        Put((cache + carry) % 256);
      }
      hide Buffered, Repeat;
      ghost var head := stream;
      var x := (255 + carry) % 256;
      RepeatNothing(x);
      while pending != 0
        invariant 0 <= pending <= old(pending) && Buffered()
        invariant stream == head + Repeat(x, old(pending) - pending)
      {
        RepeatNext(head, x, old(pending) - pending);
        Put(x);
        pending := pending - 1;
      }
    }

    method ShiftLow(ghost width: nat, ghost exact: nat, ghost shifts: nat)
      requires Buffered() && Denotes(width, exact, shifts) && 0 < width <= TOP
      modifies this`len, this`low, this`cache, this`pending, this`primed, this`overflow, this`stream, buf
      ensures Buffered() && Denotes(width * 256, exact * 256, shifts + 1)
      ensures old(low) % TOP == 0 ==> low == 0
      ensures old(low) == 0 ==> primed && pending == 0 && cache == 0
    {
      hide Spells, Released, CarryOf, TopByte, Remaining, Decided;
      ShiftFacts(low);
      if Decided(low) {
        ShiftDecided(stream, primed, cache, pending, low, width, exact, shifts);
        Release(CarryOf(low));
        cache := TopByte(low);
        primed := true;
      } else {
        ShiftUndecided(stream, primed, cache, pending, low, width, exact, shifts);
        pending := pending + 1;
      }
      low := Remaining(low);
    }

    /** Coding a symbol narrows the exact interval; `low` never needs a 34th bit. */
    method EncSym(cum: u32, freq: u32, tot: u32)
      requires Valid() && Sym(cum, freq, tot).Codeable()
      modifies this, buf
      ensures Valid() && iv == Narrow(old(iv), Sym(cum, freq, tot))
    {
      hide Spells;
      ghost var s := Sym(cum, freq, tot);
      SliceBounds(range, s);
      NarrowNormal(iv, s);
      ghost var j := Slice(iv, s);
      var r := range / tot;
      SpellsInside(stream, primed, cache, pending, low, range, iv.low, iv.shifts, r * cum, r * freq);
      low := low + r * cum;
      range := r * freq;
      while range < TOP
        invariant iv == old(iv) && !finished && Buffered() && 0 < j.range == range
        invariant Denotes(j.range, j.low, j.shifts)
        invariant Renorm(j) == Narrow(iv, s)
        decreases TOP - range
      {
        ShiftLow(j.range, j.low, j.shifts);
        range := range * 256;
        j := Interval(j.low * 256, j.range * 256, j.shifts + 1);
      }
      iv := j;
    }

    /** Round `low` up to as few significant bytes as the interval allows: one, always. */
    method RoundLow()
      requires Buffered() && iv.Normal() && range == iv.range && Denotes(range, iv.low, iv.shifts)
      modifies this`low
      ensures Buffered() && low % TOP == 0 && Denotes(1, RoundUp(iv.low), iv.shifts)
    {
      RoundedSpells(stream, primed, cache, pending, low, iv);
      hide Spells, Interval.Normal;
      for i := 1 to 5
        invariant i == 1 && low == old(low)
      {
        var mask := if i == 4 then 0 else (U32 - 1) / Pow256(i);
        assert Pow256(1) == 256;
        var v := (low + mask) / (mask + 1) * (mask + 1);
        if v < low + range {
          low := v;
          break;
        }
      }
    }

    /**
      Flush: round, push everything out, and drop the zeroes the decoder reads
      anyway. A second call does nothing.
     */
    method Finish() returns (n: nat)
      requires finished || Valid()
      modifies this, buf
      ensures finished && n == len
      ensures old(finished) ==> unchanged(this) && unchanged(buf)
      ensures !old(finished) ==> overflow == (old(iv).shifts + 4 > buf.Length)
      ensures !old(finished) && !overflow ==> len <= buf.Length && buf[..len] == Message(old(iv))
    {
      hide Spells, Buffered, Digits, TrimZeros, Shifted;
      if !finished {
        RoundLow();
        FlushShifts(RoundUp(iv.low), iv.shifts);
        TrimTail();
        finished := true;
      }
      n := len;
    }

    method TrimTail()
      requires len <= buf.Length
      modifies this`len
      ensures len <= buf.Length && buf[..len] == TrimZeros(old(buf[..len]))
    {
      while len > 0 && buf[len - 1] == 0
        invariant len <= buf.Length && TrimZeros(buf[..len]) == TrimZeros(old(buf[..len]))
      {
        assert buf[..len][..len - 1] == buf[..len - 1];
        len := len - 1;
      }
    }

    /** Five shifts of a `low` that is a multiple of 2^24 put out every significant byte. */
    method FlushShifts(ghost whole: nat, ghost shifts: nat)
      requires Buffered() && Denotes(1, whole, shifts) && low % TOP == 0
      modifies this`len, this`low, this`cache, this`pending, this`primed, this`overflow, this`stream, buf
      ensures stream == Digits(whole, shifts + 4)
      ensures len <= buf.Length && overflow == (shifts + 4 > buf.Length)
      ensures !overflow ==> buf[..len] == stream
    {
      hide Spells, Buffered;
      for i := 0 to 5
        invariant Buffered() && if i == 0 then low % TOP == 0 else low == 0
        invariant i > 1 ==> primed && pending == 0 && cache == 0
        invariant Denotes(1, Shifted(whole, i), shifts + i)
      {
        ShiftLow(1, Shifted(whole, i), shifts + i);
        SpellsInside(stream, primed, cache, pending, low, 256, Shifted(whole, i) * 256, shifts + i + 1, 0, 1);
      }
      FlushedDigits(stream, whole, shifts);
      BufferedAll();
    }

    lemma BufferedAll()
      requires Buffered()
      ensures len <= buf.Length && overflow == (|stream| > buf.Length)
      ensures !overflow ==> buf[..len] == stream
    {
      assert stream[..|stream|] == stream;
    }
  }
}
