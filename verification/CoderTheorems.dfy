/**
  What the coder is for: the decoder gets back every symbol, and a message is
  no longer than the probability it was charged.
 */
module CoderTheorems {
  import opened Products
  import opened ByteStrings
  import opened Intervals
  import opened Words
  import opened RangeDecoder

  /** The decoder sits inside `iv`: its code is the distance of the stream from the exact low end. */
  ghost predicate Tracks(b: seq<byte>, iv: Interval, d: Dec) {
    && d.range == iv.range && d.taken == iv.shifts + 4
    && iv.Has(Window(b, d.taken))
    && d.code == Window(b, d.taken) - iv.low
  }

  /** Decoding `b` from `d`, every target falls in the slice of the next symbol of `syms`. */
  ghost predicate Recovers(b: seq<byte>, d: Dec, syms: seq<Sym>)
    requires d.Normal() && AllCodeable(syms)
    decreases |syms|
  {
    syms == [] ||
    (syms[0].Owns(Target(d, syms[0].tot)) && Recovers(b, Update(b, d, syms[0]), syms[1..]))
  }

  lemma {:induction false} RefillTracks(b: seq<byte>, iv: Interval, d: Dec)
    requires 0 < iv.range < U32 && Tracks(b, iv, d) && d.code < U32
    ensures Tracks(b, Renorm(iv), Refill(b, d))
    decreases TOP - iv.range
  {
    if iv.range < TOP {
      var d1 := Dec(d.code * 256 % U32 + At(b, d.taken), d.range * 256, d.taken + 1);
      var k := Interval(iv.low * 256, iv.range * 256, iv.shifts + 1);
      assert Window(b, d.taken + 1) == Window(b, d.taken) * 256 + At(b, d.taken);
      RefillTracks(b, k, d1);
    }
  }

  lemma TargetInSlice(b: seq<byte>, iv: Interval, d: Dec, s: Sym)
    requires iv.Normal() && s.Codeable() && Tracks(b, iv, d) && d.Normal()
    requires Slice(iv, s).Has(Window(b, d.taken))
    ensures s.Owns(Target(d, s.tot))
  {
    SliceBounds(iv.range, s);
    var r := iv.range / s.tot;
    assert r * (s.cum + s.freq) == r * s.cum + r * s.freq;
    QuotientBetween(d.code, r, s.cum, s.cum + s.freq);
  }

  lemma QuotientBetween(x: nat, r: nat, lo: nat, hi: nat)
    requires 0 < r && r * lo <= x < r * hi
    ensures lo <= x / r < hi
  {
    DivAtLeast(x, r, lo);
    if x / r >= hi {
      MulMono(r, hi, x / r);
      assert false;
    }
  }

  lemma {:induction false} TracksRecovers(b: seq<byte>, iv: Interval, d: Dec, syms: seq<Sym>)
    requires iv.Normal() && AllCodeable(syms) && Tracks(b, iv, d) && d.Normal()
    requires NarrowAll(iv, syms).Has(Window(b, NarrowAll(iv, syms).shifts + 4))
    ensures Recovers(b, d, syms)
    decreases |syms|
  {
    if syms != [] {
      var s := syms[0];
      NarrowNormal(iv, s);
      NarrowAllInside(b, Narrow(iv, s), syms[1..]);
      TracksStep(b, iv, d, s);
      TracksRecovers(b, Narrow(iv, s), Update(b, d, s), syms[1..]);
    }
  }

  /** One decoding step follows one encoding step. */
  lemma TracksStep(b: seq<byte>, iv: Interval, d: Dec, s: Sym)
    requires iv.Normal() && s.Codeable() && Tracks(b, iv, d) && d.Normal()
    requires Narrow(iv, s).Has(Window(b, Narrow(iv, s).shifts + 4))
    ensures s.Owns(Target(d, s.tot))
    ensures Tracks(b, Narrow(iv, s), Update(b, d, s))
  {
    NarrowInside(b, iv, s);
    TargetInSlice(b, iv, d, s);
    NoUnderflow(d, s);
    SliceBounds(iv.range, s);
    RefillTracks(b, Slice(iv, s), Consume(d, s));
  }

  /** The flushed bytes, trailing zeroes dropped, still denote a point of the final interval. */
  lemma MessageInside(iv: Interval)
    requires iv.Normal() && RoundUp(iv.low) < Pow256(iv.shifts + 4)
    ensures iv.Has(Window(Message(iv), iv.shifts + 4))
  {
    RoundUpInside(iv);
    var full := Digits(RoundUp(iv.low), iv.shifts + 4);
    ValDigits(RoundUp(iv.low), iv.shifts + 4);
    WindowPrefix(full, |full|);
    assert full[..|full|] == full;
    WindowTrim(full, |full|);
  }

  lemma {:induction false} ValDigits(v: nat, n: nat)
    requires v < Pow256(n)
    ensures Val(Digits(v, n)) == v
  {
    if n > 0 {
      ValDigits(v / 256, n - 1);
      ValSnoc(Digits(v / 256, n - 1), v % 256);
    }
  }

  /** The interval never leaves [0, 1): its end stays below 256^(4 + shifts). */
  lemma {:induction false} NarrowAllBelowOne(iv: Interval, syms: seq<Sym>)
    requires iv.Normal() && AllCodeable(syms)
    requires iv.low + iv.range <= Pow256(iv.shifts + 4)
    ensures var z := NarrowAll(iv, syms); z.low + z.range <= Pow256(z.shifts + 4)
    decreases |syms|
  {
    if syms != [] {
      SliceBounds(iv.range, syms[0]);
      NarrowNormal(iv, syms[0]);
      RenormBelowOne(Slice(iv, syms[0]));
      NarrowAllBelowOne(Narrow(iv, syms[0]), syms[1..]);
    }
  }

  lemma {:induction false} RenormBelowOne(iv: Interval)
    requires 0 < iv.range && iv.low + iv.range <= Pow256(iv.shifts + 4)
    ensures Renorm(iv).low + Renorm(iv).range <= Pow256(Renorm(iv).shifts + 4)
    decreases TOP - iv.range
  {
    if iv.range < TOP {
      RenormBelowOne(Interval(iv.low * 256, iv.range * 256, iv.shifts + 1));
    }
  }

  /** The round trip of the coder, for every sequence of symbols. */
  lemma RoundTrip(syms: seq<Sym>)
    requires AllCodeable(syms)
    ensures Recovers(Message(NarrowAll(WHOLE, syms)), DecStart(Message(NarrowAll(WHOLE, syms))), syms)
  {
    var iv := NarrowAll(WHOLE, syms);
    var b := Message(iv);
    WholeBelowOne();
    NarrowAllBelowOne(WHOLE, syms);
    RoundUpInside(iv);
    MessageInside(iv);
    NarrowAllInside(b, WHOLE, syms);
    TracksRecovers(b, WHOLE, DecStart(b), syms);
  }

  lemma WholeBelowOne()
    ensures WHOLE.low + WHOLE.range <= Pow256(4)
  {
    assert Pow256(2) == 0x1_0000;
    assert Pow256(4) == 256 * (256 * Pow256(2));
  }

  // ---------------------------------------------------------------- length

  /** The probability the tables charge for a symbol, less one part in 257 for the rounded divisor. */
  function Charged(s: Sym): (p: real)
    requires s.Codeable()
    ensures p >= 0.0
  {
    (256 * s.freq) as real / (257 * s.tot) as real
  }

  function ChargedAll(syms: seq<Sym>): (p: real)
    requires AllCodeable(syms)
    ensures p >= 0.0
  {
    if syms == [] then 1.0 else Times(Charged(syms[0]), ChargedAll(syms[1..]))
  }

  /** The width of an interval in absolute terms, whatever its unit. */
  function Width(iv: Interval): (w: real)
    ensures w >= 0.0
  {
    iv.range as real / Pow256(iv.shifts) as real
  }

  lemma DivMono(a: real, b: real, c: real)
    requires a <= b && c > 0.0
    ensures a / c <= b / c
  {
  }

  lemma RealMulMono(k: real, a: real, b: real)
    requires a <= b && k >= 0.0
    ensures k * a <= k * b
  {
  }

  lemma ScaleBoth(a: real, b: real)
    requires b > 0.0
    ensures (a * 256.0) / (b * 256.0) == a / b
  {
  }

  lemma {:induction false} RenormWidth(iv: Interval)
    requires 0 < iv.range
    ensures Width(Renorm(iv)) == Width(iv)
    decreases TOP - iv.range
  {
    if iv.range < TOP {
      RenormWidth(Interval(iv.low * 256, iv.range * 256, iv.shifts + 1));
      ScaleBoth(iv.range as real, Pow256(iv.shifts) as real);
    }
  }

  /** Narrowing to a symbol keeps at least its charged share of the width. */
  lemma NarrowWidth(iv: Interval, s: Sym)
    requires iv.Normal() && s.Codeable()
    ensures Times(Charged(s), Width(iv)) <= Width(Narrow(iv, s))
  {
    var r := iv.range / s.tot;
    SliceBounds(iv.range, s);
    RenormWidth(Slice(iv, s));
    SlicePart(iv.range, r, s.freq, s.tot);
    ShareOfQuotient(Charged(s), iv.range as real, (r * s.freq) as real, Pow256(iv.shifts) as real);
  }

  lemma ShareOfQuotient(c: real, n: real, m: real, p: real)
    requires c * n <= m && p > 0.0
    ensures c * (n / p) <= m / p
  {
    DivMono(c * n, m, p);
    assert c * (n / p) == c * n / p;
  }

  lemma ShareOfShare(a: real, b: real, c: real, w: real, w1: real, w2: real)
    requires 0.0 <= b && Times(a, w) <= w1 && Times(b, w1) <= w2 && c == Times(a, b)
    ensures Times(c, w) <= w2
  {
    RealMulMono(b, a * w, w1);
    assert a * b * w == b * (a * w);
  }

  lemma ShareAtMostOne(c: real, w: real, a: real, p: real)
    requires w > 0.0 && p > 0.0 && Times(c, w) <= a / p && a <= w
    ensures Times(p, c) <= 1.0
  {
    RealMulMono(p, c * w, a / p);
    assert p * (c * w) <= a <= w;
    assert (p * c) * w <= 1.0 * w;
  }

  lemma SlicePart(range: nat, r: nat, freq: nat, tot: nat)
    requires 1 <= tot && 256 <= r && range < r * tot + tot
    ensures (256 * freq) as real / (257 * tot) as real * range as real <= (r * freq) as real
  {
    assert 256 * range <= 257 * (r * tot) by { MulMono(tot, 256, r); }
    MulMono(freq, 256 * range, 257 * (r * tot));
    var a, b, c := (256 * freq) as real, (257 * tot) as real, range as real;
    assert a * c <= (r * freq) as real * b by {
      assert freq * (256 * range) == 256 * freq * range;
      assert freq * (257 * (r * tot)) == r * freq * (257 * tot);
    }
    DivMono(a * c, (r * freq) as real * b, b);
  }

  lemma {:induction false} NarrowAllWidth(iv: Interval, syms: seq<Sym>)
    requires iv.Normal() && AllCodeable(syms)
    ensures Times(ChargedAll(syms), Width(iv)) <= Width(NarrowAll(iv, syms))
    decreases |syms|
  {
    if syms != [] {
      var s, m, rest := syms[0], Narrow(iv, syms[0]), syms[1..];
      NarrowNormal(iv, s);
      NarrowWidth(iv, s);
      NarrowAllWidth(m, rest);
      hide Times, Width, Charged, Narrow;
      assert NarrowAll(iv, syms) == NarrowAll(m, rest);
      ShareOfShare(Charged(s), ChargedAll(rest), ChargedAll(syms), Width(iv), Width(m), Width(NarrowAll(m, rest)));
    }
  }

  lemma {:induction false} ShiftsAtMostTwoEach(iv: Interval, syms: seq<Sym>)
    requires iv.Normal() && AllCodeable(syms)
    ensures NarrowAll(iv, syms).shifts <= iv.shifts + 2 * |syms|
    decreases |syms|
  {
    if syms != [] {
      NarrowNormal(iv, syms[0]);
      ShiftsAtMostTwoEach(Narrow(iv, syms[0]), syms[1..]);
    }
  }

  /** The flush keeps one significant byte beyond the shifts. */
  lemma MessageLength(iv: Interval)
    ensures |Message(iv)| <= iv.shifts + 1
  {
    var v, n := RoundUp(iv.low), iv.shifts;
    var b := Digits(v, n + 4);
    var k := (iv.low + (TOP - 1)) / TOP;
    assert v == k * 0x1_0000 * 256 && v / 256 == k * 256 * 256 && v / 256 / 256 == k * 256;
    assert Digits(v / 256, n + 3) == Digits(v / 256 / 256, n + 2) + [0];
    assert Digits(v / 256 / 256, n + 2) == Digits(k, n + 1) + [0];
    assert b == Digits(v / 256, n + 3) + [0];
    assert b[n + 1] == 0 && b[n + 2] == 0 && b[n + 3] == 0;
  }

  /**
    A message is at most one byte longer than its shifts, and the shifts are
    paid for by the probability the tables charged.
   */
  lemma LengthBound(syms: seq<Sym>)
    requires AllCodeable(syms)
    ensures var iv := NarrowAll(WHOLE, syms);
      && |Message(iv)| <= iv.shifts + 1
      && Times(Pow256(iv.shifts) as real, ChargedAll(syms)) <= 1.0
      && iv.shifts <= 2 * |syms|
  {
    var iv := NarrowAll(WHOLE, syms);
    MessageLength(iv);
    ShiftsAtMostTwoEach(WHOLE, syms);
    NarrowAllWidth(WHOLE, syms);
    hide Times, NarrowAll, ChargedAll, Message;
    assert Width(WHOLE) == WHOLE.range as real / 1.0;
    ShareAtMostOne(ChargedAll(syms), WHOLE.range as real, iv.range as real, Pow256(iv.shifts) as real);
  }
}
