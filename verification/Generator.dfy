/** The generator of core/src/tq_sample.c:23-44: xorshift64* and its 24-bit draw. */
module Generator {
  const SEED: bv64 := 0x853c49e6748fea9b
  const MULTIPLIER: bv64 := 0x2545F4914F6CDD1D

  function Down12(x: bv64): bv64 {
    x ^ (x >> 12)
  }

  function Up25(x: bv64): bv64 {
    x ^ (x << 25)
  }

  function Down27(x: bv64): bv64 {
    x ^ (x >> 27)
  }

  /** The state after a draw. */
  function Next(x: bv64): bv64 {
    Down27(Up25(Down12(x)))
  }

  /** The top 24 bits of the scrambled state. */
  function Top24(x: bv64): bv24 {
    ((x * MULTIPLIER) >> 40) as bv24
  }

  /** The number drawn in state `x`. */
  function Draw(x: bv64): (u: real)
    ensures 0.0 <= u < 1.0
  {
    Top24(x) as nat as real / 16777216.0
  }

  /** A seed of zero gives the default one. */
  function Seeded(seed: bv64): (x: bv64)
    ensures x != 0
  {
    if seed == 0 then SEED else seed
  }

  lemma Down12NotZero(x: bv64)
    ensures Down12(x) == 0 ==> x == 0
  {
  }

  lemma Up25NotZero(x: bv64)
    ensures Up25(x) == 0 ==> x == 0
  {
  }

  lemma Down27NotZero(x: bv64)
    ensures Down27(x) == 0 ==> x == 0
  {
  }

  /** Zero is reached only from zero. */
  lemma NextNotZero(x: bv64)
    requires x != 0
    ensures Next(x) != 0
  {
    Down12NotZero(x);
    Up25NotZero(Down12(x));
    Down27NotZero(Up25(Down12(x)));
    hide Down12, Up25, Down27;
  }

  /** The states of a run ... */
  function After(x: bv64, n: nat): bv64 {
    if n == 0 then x else Next(After(x, n - 1))
  }

  /** ... are never zero: a seeded generator never sticks. */
  lemma {:induction false} NeverStuck(seed: bv64, n: nat)
    ensures After(Seeded(seed), n) != 0
  {
    if n > 0 {
      NeverStuck(seed, n - 1);
      NextNotZero(After(Seeded(seed), n - 1));
    }
  }
}
