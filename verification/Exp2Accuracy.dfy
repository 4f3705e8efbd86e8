/**
  How close the integer 2^x of core/src/tq_ac.c comes to the real one: at every
  sixteenth within 5 units of 2^-24, and everywhere within a sixteenth of an
  octave.
 */
module Exp2Accuracy {
  import opened FixedExp2
  import opened Intervals
  import opened Products

  /** 2^x over the reals, as far as it is needed. */
  ghost predicate PowerOfTwo(e: real -> real) {
    && (forall x :: e(x) > 0.0)
    && (forall x, y :: e(x + y) == Times(e(x), e(y)))
    && (forall x, y :: x <= y ==> e(x) <= e(y))
    && e(1.0) == 2.0
  }

  const UNIT: real := 16777216.0

  lemma Multiplies(e: real -> real, x: real, y: real)
    requires PowerOfTwo(e)
    ensures e(x + y) == Times(e(x), e(y)) && e(x) > 0.0
  {
  }

  lemma AtZero(e: real -> real)
    requires PowerOfTwo(e)
    ensures e(0.0) == 1.0
  {
    Multiplies(e, 0.0, 1.0);
    assert 0.0 + 1.0 == 1.0;
  }

  lemma Next(e: real -> real, x: real, y: real)
    requires PowerOfTwo(e) && y == x + 1.0
    ensures e(y) == 2.0 * e(x)
  {
    Multiplies(e, x, 1.0);
  }

  // ------------------------------------------------------------- the sixteenths

  function Square(x: real): real {
    Times(x, x)
  }

  function Sixteenth(x: real): real {
    Square(Square(Square(Square(x))))
  }

  lemma SquareOrder(a: real, b: real)
    requires a > 0.0 && b > 0.0
    ensures Square(a) > 0.0 && (Square(a) < Square(b) ==> a < b)
  {
    PositiveSquare(a);
    if a >= b {
      assert a * a >= a * b >= b * b;
    }
  }

  lemma PositiveSquare(a: real)
    requires a > 0.0
    ensures Square(a) > 0.0
  {
    Positive(a, a);
    hide Times;
  }

  lemma Positive(a: real, b: real)
    requires a > 0.0 && b > 0.0
    ensures Times(a, b) > 0.0
  {
  }

  lemma SixteenthOrder(a: real, b: real)
    requires a > 0.0 && b > 0.0 && Sixteenth(a) < Sixteenth(b)
    ensures a < b
  {
    hide Square;
    SquareOrder(a, b);
    SquareOrder(b, a);
    SquareOrder(Square(a), Square(b));
    SquareOrder(Square(b), Square(a));
    SquareOrder(Square(Square(a)), Square(Square(b)));
    SquareOrder(Square(Square(b)), Square(Square(a)));
    SquareOrder(Square(Square(Square(a))), Square(Square(Square(b))));
  }

  lemma SquareOfPower(e: real -> real, k: real, y: real)
    requires PowerOfTwo(e)
    ensures Square(Times(k, e(y))) == Times(Square(k), e(2.0 * y))
  {
    Multiplies(e, y, y);
    assert y + y == 2.0 * y;
    hide PowerOfTwo;
    assert Square(k * e(y)) == k * k * (e(y) * e(y));
  }

  /** Its sixteenth power is 2^384 * 2^j. */
  lemma SixteenthOfPower(e: real -> real, y: real)
    requires PowerOfTwo(e)
    ensures Sixteenth(Times(UNIT, e(y))) == Times(Sixteenth(UNIT), e(16.0 * y))
  {
    hide Square, PowerOfTwo, Times;
    SquareOfPower(e, UNIT, y);
    SquareOfPower(e, Square(UNIT), 2.0 * y);
    SquareOfPower(e, Square(Square(UNIT)), 4.0 * y);
    SquareOfPower(e, Square(Square(Square(UNIT))), 8.0 * y);
    assert 2.0 * (2.0 * y) == 4.0 * y && 2.0 * (4.0 * y) == 8.0 * y && 2.0 * (8.0 * y) == 16.0 * y;
  }

  lemma Rooted(e: real -> real, j: nat, h: real, power: real)
    requires PowerOfTwo(e) && h > 4.0 && e(j as real) == power
    requires Sixteenth(h - 4.0) < Times(Sixteenth(UNIT), power) < Sixteenth(h + 4.0)
    ensures h - 4.0 < Times(UNIT, e(j as real / 16.0)) < h + 4.0
  {
    var y := j as real / 16.0;
    assert 16.0 * y == j as real;
    SixteenthOfPower(e, y);
    Multiplies(e, y, y);
    assert Times(UNIT, e(y)) > 0.0;
    hide Sixteenth, PowerOfTwo, Times;
    SixteenthOrder(h - 4.0, Times(UNIT, e(y)));
    SixteenthOrder(Times(UNIT, e(y)), h + 4.0);
  }

  /** The polynomial at the sixteenths. */
  const AT: seq<nat> := [16777216, 17520006, 18295683, 19105702, 19951584, 20834916, 21757357, 22720637, 23726566, 24777030, 25874003, 27019543, 28215801, 29465021, 30769549, 32131831]

  /** The accumulator's six values give the last. */
  lemma HornerBy(f: nat, a: nat, b: nat, c: nat, d: nat, g: nat, h: nat)
    requires 3668 * f / Q16 + 20789 == a && a * f / Q16 + 162474 == b && b * f / Q16 + 930811 == c
    requires c * f / Q16 + 4030398 == d && d * f / Q16 + 11629076 == g && g * f / Q16 + 16777216 == h
    ensures Horner(f, 0) == h
  {
    assert Horner(f, 5) == a;
    assert Horner(f, 3) == c;
    assert Horner(f, 1) == g;
  }

  const POWERS: seq<real> := [1.0, 2.0, 4.0, 8.0, 16.0, 32.0, 64.0, 128.0, 256.0, 512.0, 1024.0, 2048.0, 4096.0, 8192.0, 16384.0, 32768.0]

  lemma PowersUpTo(e: real -> real, j: nat)
    requires PowerOfTwo(e) && j < 16
    ensures e(j as real) == POWERS[j]
  {
    hide PowerOfTwo;
    if j == 0 {
      AtZero(e);
    } else {
      PowersUpTo(e, j - 1);
      Next(e, (j - 1) as real, j as real);
    }
  }

  lemma Tabulated(j: nat)
    requires j < 16
    ensures Horner(4096 * j, 0) == AT[j]
  {
    hide Horner;
    if j == 0 {
      HornerBy(0, 20789, 162474, 930811, 4030398, 11629076, 16777216);
    } else if j == 1 {
      HornerBy(4096, 21018, 163787, 941047, 4089213, 11884651, 17520006);
    } else if j == 2 {
      HornerBy(8192, 21247, 165129, 951452, 4149329, 12147742, 18295683);
    } else if j == 3 {
      HornerBy(12288, 21476, 166500, 962029, 4210778, 12418596, 19105702);
    } else if j == 4 {
      HornerBy(16384, 21706, 167900, 972786, 4273594, 12697474, 19951584);
    } else if j == 5 {
      HornerBy(20480, 21935, 169328, 983726, 4337812, 12984642, 20834916);
    } else if j == 6 {
      HornerBy(24576, 22164, 170785, 994855, 4403468, 13280376, 21757357);
    } else if j == 7 {
      HornerBy(28672, 22393, 172270, 1006179, 4470601, 13584963, 22720637);
    } else if j == 8 {
      HornerBy(32768, 22623, 173785, 1017703, 4539249, 13898700, 23726566);
    } else if j == 9 {
      HornerBy(36864, 22852, 175328, 1029433, 4609454, 14221893, 24777030);
    } else if j == 10 {
      HornerBy(40960, 23081, 176899, 1041372, 4681255, 14554860, 25874003);
    } else if j == 11 {
      HornerBy(45056, 23310, 178499, 1053529, 4754699, 14897931, 27019543);
    } else if j == 12 {
      HornerBy(49152, 23540, 180129, 1065907, 4829828, 15251447, 28215801);
    } else if j == 13 {
      HornerBy(53248, 23769, 181786, 1078512, 4906689, 15615760, 29465021);
    } else if j == 14 {
      HornerBy(57344, 23998, 183472, 1091349, 4985328, 15991238, 30769549);
    } else {
      HornerBy(61440, 24227, 185186, 1104422, 5065793, 16378256, 32131831);
    }
  }

  lemma Bracketed(j: nat)
    requires j < 16
    ensures Sixteenth(AT[j] as real - 4.0) < Times(Sixteenth(UNIT), POWERS[j]) < Sixteenth(AT[j] as real + 4.0)
  {
  }

  lemma HornerAccurate(e: real -> real, j: nat)
    requires PowerOfTwo(e) && j < 16
    ensures Horner(4096 * j, 0) == AT[j]
    ensures AT[j] as real - 4.0 < Times(UNIT, e(j as real / 16.0)) < AT[j] as real + 4.0
  {
    PowersUpTo(e, j);
    Bracketed(j);
    Tabulated(j);
    assert AT[j] > 4;
    hide PowerOfTwo, Horner, Sixteenth, Times, AT, POWERS;
    Rooted(e, j, AT[j] as real, POWERS[j]);
  }

  // ------------------------------------------------------------- every exponent

  /** Shifting right loses less than one. */
  lemma {:induction false} ShiftLoses(e: real -> real, a: nat, n: nat)
    requires PowerOfTwo(e)
    ensures Times(a as real, e(-(n as real))) - 1.0 < Shr(a, n) as real <= Times(a as real, e(-(n as real)))
  {
    hide PowerOfTwo;
    if n == 0 {
      AtZero(e);
    } else {
      ShiftLoses(e, a, n - 1);
      ShrSnoc(a, n - 1);
      var x, y := -((n - 1) as real), -(n as real);
      Next(e, y, x);
      hide Shr, Times;
      Halved(a as real, e(x), e(y));
    }
  }

  lemma Halved(a: real, x: real, y: real)
    requires 2.0 * y == x
    ensures 2.0 * Times(a, y) == Times(a, x)
  {
  }

  lemma Within(h: real, t: real, p: real)
    requires h - 4.0 < t < h + 4.0 && 0.0 < p <= 1.0
    ensures Times(h, p) - 4.0 < Times(t, p) < Times(h, p) + 4.0
  {
    Difference(t, h, p);
    Difference(h, t, p);
    hide Times;
    if t >= h {
      Fraction(t - h, p);
    } else {
      Fraction(h - t, p);
    }
  }

  lemma Difference(a: real, b: real, p: real)
    ensures Times(a, p) - Times(b, p) == Times(a - b, p)
  {
  }

  lemma Fraction(x: real, p: real)
    requires x >= 0.0 && 0.0 < p <= 1.0
    ensures 0.0 <= Times(x, p) <= x
  {
    assert x * (1.0 - p) >= 0.0;
  }

  lemma Below(e: real -> real, n: nat)
    requires PowerOfTwo(e)
    ensures 0.0 < e(-(n as real)) <= 1.0
    ensures n >= 24 ==> Times(UNIT, e(-(n as real))) <= 1.0
  {
    AtZero(e);
    assert e(-(n as real)) <= e(0.0);
    if n >= 24 {
      assert e(-(n as real)) <= e(-24.0);
      TwentyFourDown(e);
    }
  }

  lemma TwentyFourDown(e: real -> real)
    requires PowerOfTwo(e)
    ensures Times(UNIT, e(-24.0)) == 1.0
  {
    AtZero(e);
    hide PowerOfTwo;
    Next(e, -1.0, 0.0);
    Twice(e, -1.0, 0.5);
    Twice(e, -2.0, 0.25);
    Twice(e, -4.0, 0.0625);
    Twice(e, -8.0, 0.00390625);
    Multiplies(e, -16.0, -8.0);
    assert e(-24.0) == Times(0.0000152587890625, 0.00390625);
  }

  lemma Twice(e: real -> real, x: real, v: real)
    requires PowerOfTwo(e) && e(x) == v
    ensures e(2.0 * x) == v * v
  {
    Multiplies(e, x, x);
    assert x + x == 2.0 * x;
  }

  lemma SplitExponent(k: nat) returns (n: nat, j: nat)
    ensures j < 16 && k + j == 16 * n
    ensures Exp2(-4096 * k) == if n >= 32 then 0 else Shr(Horner(4096 * j, 0), n)
  {
    var x := -4096 * k;
    n := (k + 15) / 16;
    j := 16 * n - k;
    assert x == 4096 * j - n * Q16;
    assert x / Q16 == 0 - n && x % Q16 == 4096 * j;
  }

  /** A multiple of a sixteenth: within 5 units. */
  lemma SixteenthsAccurate(e: real -> real, k: nat)
    requires PowerOfTwo(e)
    ensures Times(UNIT, e(-(k as real) / 16.0)) - 5.0 < Exp2(-4096 * k) as real < Times(UNIT, e(-(k as real) / 16.0)) + 5.0
  {
    var n, j := SplitExponent(k);
    if n >= 32 {
      Flushed(e, k);
    } else {
      var y, z := j as real / 16.0, -(n as real);
      assert -(k as real) / 16.0 == y + z;
      Multiplies(e, y, z);
      HornerAccurate(e, j);
      Below(e, n);
      ShiftLoses(e, AT[j], n);
      hide PowerOfTwo, Exp2, Horner, Shr, Times, AT;
      Within(AT[j] as real, Times(UNIT, e(y)), e(z));
      Associative(UNIT, e(y), e(z));
    }
  }

  lemma Associative(a: real, b: real, c: real)
    ensures Times(Times(a, b), c) == Times(a, Times(b, c))
  {
  }

  lemma Flushed(e: real -> real, k: nat)
    requires PowerOfTwo(e) && k >= 16 * 31
    ensures 0.0 < Times(UNIT, e(-(k as real) / 16.0)) <= 1.0
  {
    Below(e, 31);
    assert e(-(k as real) / 16.0) <= e(-(31 as real));
    assert e(-(k as real) / 16.0) > 0.0;
  }

  /** Every exponent: between the powers of two a sixteenth of an octave below and above. */
  lemma Exp2Near(e: real -> real, x: int)
    requires PowerOfTwo(e) && x <= 0
    ensures var y := x as real / 65536.0;
      Times(UNIT, e(y - 0.0625)) - 5.0 < Exp2(x) as real < Times(UNIT, e(y + 0.0625)) + 5.0
  {
    hide Exp2, PowerOfTwo, Times;
    var k := -x / 4096;
    assert -4096 * (k + 1) < x <= -4096 * k;
    Exp2Monotone(-4096 * (k + 1), x);
    Exp2Monotone(x, -4096 * k);
    SixteenthsAccurate(e, k);
    SixteenthsAccurate(e, k + 1);
    var y := x as real / 65536.0;
    var lo, hi := -((k + 1) as real) / 16.0, -(k as real) / 16.0;
    assert y - 0.0625 <= lo && hi <= y + 0.0625;
    Ordered(e, y - 0.0625, lo);
    Ordered(e, hi, y + 0.0625);
  }

  lemma Ordered(e: real -> real, a: real, b: real)
    requires PowerOfTwo(e) && a <= b
    ensures Times(UNIT, e(a)) <= Times(UNIT, e(b))
  {
    assert e(a) <= e(b);
  }
}
