/** The integer 2^x of core/src/tq_ac.c: Q16 exponent in, Q24 value out. */
module FixedExp2 {
  import opened Intervals
  import opened Words

  const ONE: nat := 0x100_0000  // 1.0 in Q24
  const Q16: nat := 0x1_0000

  const COEFF: seq<nat> := [16777216, 11629076, 4030398, 930811, 162474, 20789, 3668]

  /** The Horner accumulator once coefficient `k` has been added. */
  function Horner(f: nat, k: nat): nat
    requires k <= 6
    decreases 6 - k
  {
    if k == 6 then COEFF[6] else Horner(f, k + 1) * f / Q16 + COEFF[k]
  }

  /** x >> n for non-negative x. */
  function Shr(x: nat, n: nat): nat {
    if n == 0 then x else Shr(x / 2, n - 1)
  }

  function Exp2(x: int): nat {
    var x := if x > 0 then 0 else x;
    if -(x / Q16) >= 32 then 0 else Shr(Horner(x % Q16, 0), -(x / Q16))
  }

  method ShiftRight(x: nat, n: nat) returns (r: nat)
    ensures r == Shr(x, n) <= x
  {
    r := x;
    for i := 0 to n
      invariant Shr(r, n - i) == Shr(x, n) && r <= x
    {
      r := r / 2;
    }
  }

  method Exp2Q24(x0: int32) returns (w: u32)
    ensures w == Exp2(x0) <= ONE
  {
    var x := if x0 > 0 then 0 else x0;
    var ip: int32 := x / Q16;
    var f: nat := x % Q16;
    var acc: int64 := COEFF[6];
    for k := 6 downto 0
      invariant acc == Horner(f, k)
    {
      HornerBound(f, k);
      HornerStep(f, k + 1);
      var scaled: int64 := acc * f;
      acc := scaled / Q16 + COEFF[k];
    }
    HornerBound(f, 0);
    Exp2Bound(x);
    var sh := -ip;
    if sh >= 32 {
      return 0;
    }
    w := ShiftRight(acc, sh);
  }

  /** The sum of coefficients k..6; the accumulator never passes it. */
  function CoeffSum(k: nat): nat
    requires k <= 6
    decreases 6 - k
  {
    if k == 6 then COEFF[6] else CoeffSum(k + 1) + COEFF[k]
  }

  lemma HornerStep(f: nat, k: nat)
    requires f < Q16 && k <= 6
    ensures 0 <= Horner(f, k) * f <= Horner(f, k) * Q16
    ensures 0 <= Horner(f, k) * f / Q16 <= Horner(f, k)
    ensures Horner(f, k) > 0 ==> Horner(f, k) * f / Q16 < Horner(f, k)
  {
    FractionOf(Horner(f, k), f);
  }

  lemma FractionOf(a: nat, f: nat)
    requires f < Q16
    ensures 0 <= a * f <= a * Q16 && 0 <= a * f / Q16 <= a
    ensures a > 0 ==> a * f / Q16 < a
  {
    MulMono(a, f, Q16 - 1);
    assert a * (Q16 - 1) == a * Q16 - a;
  }

  lemma {:induction false} HornerWithin(f: nat, k: nat)
    requires f < Q16 && k <= 6
    ensures COEFF[k] <= Horner(f, k) <= CoeffSum(k)
    ensures k < 6 ==> Horner(f, k) < CoeffSum(k)
    decreases 6 - k
  {
    if k < 6 {
      HornerWithin(f, k + 1);
      HornerStep(f, k + 1);
    }
  }

  /** The accumulator ends in [1.0, 2.0): the coefficients sum to exactly 2^25. */
  lemma HornerBound(f: nat, k: nat)
    requires f < Q16 && k <= 6
    ensures 0 < Horner(f, k) < 2 * ONE
    ensures ONE <= Horner(f, 0)
  {
    HornerWithin(f, k);
    HornerWithin(f, 0);
    assert CoeffSum(3) == 930811 + 162474 + 20789 + 3668;
    assert CoeffSum(0) == 2 * ONE;
    CoeffSumMono(k);
  }

  lemma {:induction false} CoeffSumMono(k: nat)
    requires k <= 6
    ensures CoeffSum(k) <= CoeffSum(0)
  {
    if k > 0 {
      CoeffSumMono(k - 1);
    }
  }

  lemma {:induction false} HornerMono(f: nat, g: nat, k: nat)
    requires f <= g < Q16 && k <= 6
    ensures Horner(f, k) <= Horner(g, k)
    decreases 6 - k
  {
    if k < 6 {
      HornerMono(f, g, k + 1);
      var a, b := Horner(f, k + 1), Horner(g, k + 1);
      MulMono(f, a, b);
      MulMono(b, f, g);
    }
  }

  lemma {:induction false} ShrMono(a: nat, b: nat, n: nat)
    requires a <= b
    ensures Shr(a, n) <= Shr(b, n) <= b
  {
    if n > 0 {
      ShrMono(a / 2, b / 2, n - 1);
    }
  }

  lemma {:induction false} ShrSnoc(a: nat, n: nat)
    ensures Shr(a, n + 1) == Shr(a, n) / 2
  {
    if n > 0 {
      ShrSnoc(a / 2, n - 1);
    }
  }

  lemma {:induction false} ShrAntitone(a: nat, n: nat, m: nat)
    requires n <= m
    ensures Shr(a, m) <= Shr(a, n)
  {
    if n < m {
      ShrAntitone(a, n, m - 1);
      ShrSnoc(a, m - 1);
    }
  }

  lemma Exp2Bound(x: int)
    requires x <= 0
    ensures Exp2(x) <= Exp2(0) == ONE
  {
    Exp2Monotone(x, 0);
    assert Horner(0, 0) == ONE;
  }

  /** Monotone over every x <= 0, octave seams included. */
  lemma Exp2Monotone(x: int, y: int)
    requires x <= y <= 0
    ensures Exp2(x) <= Exp2(y)
  {
    var n, m := -(x / Q16), -(y / Q16);
    var a, b := Horner(x % Q16, 0), Horner(y % Q16, 0);
    HornerBound(x % Q16, 0);
    HornerBound(y % Q16, 0);
    if n == m {
      HornerMono(x % Q16, y % Q16, 0);
      ShrMono(a, b, n);
    } else {
      assert Shr(a, m + 1) == Shr(a / 2, m);
      ShrMono(a / 2, b, m);
      ShrAntitone(a, m + 1, n);
    }
  }

  /** One octave down halves the result exactly, flush to zero included. */
  lemma Exp2Halves(x: int)
    requires x <= 0
    ensures Exp2(x - Q16) == Exp2(x) / 2
  {
    var n, a := -(x / Q16), Horner(x % Q16, 0);
    assert (x - Q16) / Q16 == x / Q16 - 1 && (x - Q16) % Q16 == x % Q16;
    HornerBound(x % Q16, 0);
    ShrSnoc(a, n);
    if n >= 31 {
      BitsOf25();
      ShrBelow(a, 25);
      ShrAntitone(a, 25, n);
    }
  }

  function Bits(n: nat): nat {
    if n == 0 then 1 else 2 * Bits(n - 1)
  }

  lemma BitsOf25()
    ensures Bits(25) == 2 * ONE
  {
    assert Bits(3) == 8;
    assert Bits(5) == 4 * Bits(3) && Bits(7) == 4 * Bits(5);
    assert Bits(9) == 4 * Bits(7) && Bits(11) == 4 * Bits(9);
    assert Bits(13) == 4 * Bits(11) && Bits(15) == 4 * Bits(13);
    assert Bits(17) == 4 * Bits(15) && Bits(19) == 4 * Bits(17);
    assert Bits(21) == 4 * Bits(19) && Bits(23) == 4 * Bits(21);
  }

  lemma {:induction false} ShrBelow(a: nat, n: nat)
    requires a < Bits(n)
    ensures Shr(a, n) == 0
  {
    if n > 0 {
      ShrBelow(a / 2, n - 1);
    }
  }
}
