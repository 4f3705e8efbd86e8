/**
  The reference form of the coder: unbounded-precision interval narrowing.

  An interval [low, low + range) is measured in units of 256^-(4 + shifts), so
  renormalising only changes the unit. Nothing here is truncated, carried or
  deferred; RangeEncoder proves that the machine in core/src/tq_ac.c computes it.
 */
module Intervals {
  import opened ByteStrings
  import opened Words

  const TOT: nat := 0x1_0000
  const TOP: nat := 0x100_0000

  /** One coded symbol: its slice [cum, cum + freq) of a table that sums to tot. */
  datatype Sym = Sym(cum: nat, freq: nat, tot: nat) {
    predicate Codeable() {
      1 <= tot <= TOT && 1 <= freq && cum + freq <= tot
    }

    predicate Owns(target: nat) {
      cum <= target < cum + freq
    }
  }

  datatype Interval = Interval(low: nat, range: nat, shifts: nat) {
    predicate Normal() {
      TOP <= range < U32
    }

    predicate Has(v: nat) {
      low <= v < low + range
    }
  }

  ghost predicate AllCodeable(syms: seq<Sym>) {
    forall i :: 0 <= i < |syms| ==> syms[i].Codeable()
  }

  const WHOLE := Interval(0, U32 - 1, 0)

  function Renorm(iv: Interval): (r: Interval)
    requires 0 < iv.range
    decreases TOP - iv.range
  {
    if iv.range >= TOP then iv
    else Renorm(Interval(iv.low * 256, iv.range * 256, iv.shifts + 1))
  }

  /** The slice of `iv` that belongs to `s`, before renormalising. */
  function Slice(iv: Interval, s: Sym): (r: Interval)
    requires iv.Normal() && s.Codeable()
    ensures 0 < r.range
  {
    SliceBounds(iv.range, s);
    Interval(iv.low + iv.range / s.tot * s.cum, iv.range / s.tot * s.freq, iv.shifts)
  }

  function Narrow(iv: Interval, s: Sym): Interval
    requires iv.Normal() && s.Codeable()
  {
    Renorm(Slice(iv, s))
  }

  function NarrowAll(iv: Interval, syms: seq<Sym>): (r: Interval)
    requires iv.Normal() && AllCodeable(syms)
    ensures r.Normal()
    decreases |syms|
  {
    if syms == [] then iv
    else NarrowNormal(iv, syms[0]); NarrowAll(Narrow(iv, syms[0]), syms[1..])
  }

  /** The least multiple of 2^24 that is not below `low`. */
  function RoundUp(low: nat): nat {
    (low + (TOP - 1)) / TOP * TOP
  }

  /** The bytes the encoder sends once its interval has narrowed to `iv`. */
  function Message(iv: Interval): seq<byte> {
    TrimZeros(Digits(RoundUp(iv.low), iv.shifts + 4))
  }

  /** The divisor is never below 256, so a slice is never empty, and it stays inside. */
  lemma SliceBounds(range: nat, s: Sym)
    requires TOP <= range < U32 && s.Codeable()
    ensures 256 <= range / s.tot
    ensures 256 <= range / s.tot * s.freq
    ensures range / s.tot * s.cum + range / s.tot * s.freq <= range / s.tot * s.tot <= range
    ensures range / s.tot * s.tot > range - s.tot
  {
    var r := range / s.tot;
    DivAtLeast(range, s.tot, 256);
    assert r * s.cum + r * s.freq == r * (s.cum + s.freq);
    MulMono(r, s.cum + s.freq, s.tot);
    MulMono(r, 1, s.freq);
  }

  lemma DivAtLeast(a: nat, b: nat, q: nat)
    requires 0 < b && q * b <= a
    ensures q <= a / b
  {
    assert a == a / b * b + a % b;
    if a / b < q {
      MulMono(b, a / b + 1, q);
      assert false;
    }
  }

  lemma DivAtMost(a: nat, b: nat)
    requires 0 < b
    ensures a / b * b <= a && 0 <= a / b <= a
  {
    MulMono(a / b, 1, b);
  }

  lemma MulMono(k: nat, a: int, b: int)
    requires a <= b
    ensures k * a <= k * b
  {
  }

  /** One symbol costs at most two shifts and leaves the interval normal. */
  lemma NarrowNormal(iv: Interval, s: Sym)
    requires iv.Normal() && s.Codeable()
    ensures Narrow(iv, s).Normal()
    ensures iv.shifts <= Narrow(iv, s).shifts <= iv.shifts + 2
  {
    SliceBounds(iv.range, s);
    RenormNormal(Slice(iv, s));
  }

  lemma RenormNormal(j: Interval)
    requires 256 <= j.range < U32
    ensures Renorm(j).Normal() && j.shifts <= Renorm(j).shifts <= j.shifts + 2
  {
    if j.range < TOP {
      var k := Interval(j.low * 256, j.range * 256, j.shifts + 1);
      assert Renorm(j) == Renorm(k);
      if k.range < TOP {
        var k2 := Interval(k.low * 256, k.range * 256, k.shifts + 1);
        assert Renorm(k) == Renorm(k2) == k2;
      }
    }
  }

  /** A longer prefix of the stream lies in the renormalised interval exactly when the shorter one lies in the original. */
  lemma {:induction false} RenormHas(b: seq<byte>, iv: Interval)
    requires 0 < iv.range
    ensures Renorm(iv).shifts >= iv.shifts
    ensures Renorm(iv).Has(Window(b, Renorm(iv).shifts + 4)) <==> iv.Has(Window(b, iv.shifts + 4))
    decreases TOP - iv.range
  {
    if iv.range < TOP {
      var k := Interval(iv.low * 256, iv.range * 256, iv.shifts + 1);
      RenormHas(b, k);
      var w := Window(b, iv.shifts + 4);
      assert Window(b, k.shifts + 4) == w * 256 + At(b, iv.shifts + 4);
    }
  }

  /** Narrowing only ever shrinks the set of byte streams. */
  lemma NarrowInside(b: seq<byte>, iv: Interval, s: Sym)
    requires iv.Normal() && s.Codeable()
    requires Narrow(iv, s).Has(Window(b, Narrow(iv, s).shifts + 4))
    ensures Slice(iv, s).Has(Window(b, iv.shifts + 4))
    ensures iv.Has(Window(b, iv.shifts + 4))
  {
    RenormHas(b, Slice(iv, s));
    SliceBounds(iv.range, s);
  }

  lemma {:induction false} NarrowAllInside(b: seq<byte>, iv: Interval, syms: seq<Sym>)
    requires iv.Normal() && AllCodeable(syms)
    requires NarrowAll(iv, syms).Has(Window(b, NarrowAll(iv, syms).shifts + 4))
    ensures iv.Has(Window(b, iv.shifts + 4))
    decreases |syms|
  {
    if syms != [] {
      NarrowNormal(iv, syms[0]);
      NarrowAllInside(b, Narrow(iv, syms[0]), syms[1..]);
      NarrowInside(b, iv, syms[0]);
    }
  }

  lemma {:induction false} NarrowAllConcat(iv: Interval, a: seq<Sym>, b: seq<Sym>)
    requires iv.Normal() && AllCodeable(a) && AllCodeable(b)
    ensures AllCodeable(a + b)
    ensures NarrowAll(iv, a + b) == NarrowAll(NarrowAll(iv, a), b)
    decreases |a|
  {
    if a == [] {
      assert a + b == b;
    } else {
      NarrowNormal(iv, a[0]);
      NarrowAllConcat(Narrow(iv, a[0]), a[1..], b);
      assert (a + b)[1..] == a[1..] + b;
    }
  }

  /** Rounding up to one significant byte stays inside any normal interval, so the flush never needs a second. */
  lemma RoundUpInside(iv: Interval)
    requires iv.Normal()
    ensures iv.Has(RoundUp(iv.low)) && RoundUp(iv.low) % TOP == 0
  {
    var v := RoundUp(iv.low);
    assert v == (iv.low + (TOP - 1)) - (iv.low + (TOP - 1)) % TOP;
    assert v % TOP == 0 by { assert v == (iv.low + (TOP - 1)) / TOP * TOP; }
  }
}
