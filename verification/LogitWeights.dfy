/**
  The weights of core/src/tq_ac.c over exact reals: the logit difference of
  tq_ac_delta_q16 in place of the parameter, and what it makes of the tables.
 */
module LogitWeights {
  import opened CountTables
  import opened Exp2Accuracy
  import opened FixedExp2
  import opened Products
  import opened TokenCodec
  import opened Words

  const MIN_DELTA: real := -18.0
  const LOG2E_Q16: real := 1.4426950408889634 * 65536.0

  function Clamped(d: real): (c: real)
    ensures MIN_DELTA <= c <= 0.0
  {
    if !(d > MIN_DELTA) then MIN_DELTA else if d > 0.0 then 0.0 else d
  }

  /** tq_ac_delta_q16. */
  function Delta(logit: real, max: real): int32 {
    Truncate(Clamped(logit - max) * LOG2E_Q16)
  }

  /** The operations of exact logits. */
  function Reals(): LogitOps<real> {
    LogitOps((a, b) => a > b, Delta)
  }

  lemma RealsStrict(m: real)
    ensures Strict(Reals()) && Reals().delta(m, m) == 0
  {
  }

  lemma ScaledMono(a: real, b: real)
    requires a <= b <= 0.0
    ensures a * LOG2E_Q16 <= b * LOG2E_Q16 <= 0.0
  {
  }

  lemma DeltaMonotone(x: real, y: real, max: real)
    requires x <= y
    ensures Delta(x, max) <= Delta(y, max) <= 0
  {
    ScaledMono(Clamped(x - max), Clamped(y - max));
  }

  /** Within the clamp the difference is that of the logits in units of 2^-16 of a doubling, less than one off. */
  lemma DeltaTracks(x: real, max: real)
    requires max - 18.0 < x <= max
    ensures (Delta(x, max) - 1) as real < (x - max) * LOG2E_Q16 <= Delta(x, max) as real
  {
    ScaledMono(x - max, 0.0);
  }

  const CLAMP: int := -1701872  // the clamp in units of 2^-16 octaves

  /** At the clamp and below nothing is left of a weight, so clamping changes no output. */
  lemma ClampedWeighsNothing(x: real, max: real)
    requires x <= max - 18.0
    ensures Weigh(Reals(), x, max) == 0
    ensures forall q: int :: q <= CLAMP ==> Exp2(q) == 0
  {
    assert Delta(x, max) == CLAMP;
    forall q: int | q <= CLAMP
      ensures Exp2(q) == 0
    {
      Exp2Monotone(q, CLAMP);
      ClampIsZero();
    }
  }

  lemma ClampIsZero()
    ensures Exp2(CLAMP) == 0
  {
    assert CLAMP / Q16 == -26 && CLAMP % Q16 == 2064;
    HornerBound(2064, 0);
    BitsOf25();
    ShrBelow(Horner(2064, 0), 25);
    ShrAntitone(Horner(2064, 0), 25, 26);
  }

  lemma FarBelow(e: real -> real, d: real)
    requires PowerOfTwo(e) && d <= -24.0
    ensures 0.0 < Times(UNIT, e(d)) <= 1.0
  {
    Below(e, 24);
    Multiplies(e, d, d);
    Ordered(e, d, -(24 as real));
  }

  /**
    The weight of a logit is 2^24 times e^(logit - max), e^d written as 2^(d log2 e),
    up to a sixteenth of an octave and 5 units.
   */
  lemma WeightNear(e: real -> real, x: real, max: real)
    requires PowerOfTwo(e) && x <= max
    ensures var d := (x - max) * 1.4426950408889634;
      Times(UNIT, e(d - 0.0625)) - 5.0 < Weigh(Reals(), x, max) as real < Times(UNIT, e(d + 0.0626)) + 5.0
  {
    var d := (x - max) * 1.4426950408889634;
    if x <= max - 18.0 {
      ClampedWeighsNothing(x, max);
      FarBelow(e, d - 0.0625);
      FarBelow(e, d + 0.0626);
      return;
    }
    DeltaTracks(x, max);
    DeltaMonotone(x, max, max);
    var q := Delta(x, max);
    assert Weigh(Reals(), x, max) == Exp2(q);
    Exp2Near(e, q);
    var y := q as real / 65536.0;
    assert (x - max) * LOG2E_Q16 == d * 65536.0;
    assert y - 0.0000152587890625 < d <= y;
    hide Delta, Weigh, Exp2, PowerOfTwo;
    Ordered(e, d - 0.0625, y - 0.0625);
    Ordered(e, y + 0.0625, d + 0.0626);
  }

  /** A larger logit never weighs less, and the largest of a bucket weighs exactly one. */
  lemma WeightsFollowLogits(logits: seq<real>, b: nat, i: nat, j: nat)
    requires b < Buckets(|logits|) && i < BucketSize(|logits|, b) && j < BucketSize(|logits|, b)
    ensures var s := BucketOf(logits, b);
      var w := WeighAll(Reals(), s, MaxOf(Reals(), s));
      && (s[i] <= s[j] ==> w[i] <= w[j])
      && ((forall k :: 0 <= k < |s| ==> s[k] <= s[j]) ==> w[j] == ONE)
  {
    var s := BucketOf(logits, b);
    var m := MaxOf(Reals(), s);
    RealsStrict(m);
    var k := MaxIsGreatest(Reals(), s);
    if s[i] <= s[j] {
      DeltaMonotone(s[i], s[j], m);
      CountsFollowLogits(Reals(), logits, b, i, j);
    }
    if forall k :: 0 <= k < |s| ==> s[k] <= s[j] {
      assert s[k] == m && !Reals().gt(s[j], m);
      Exp2Bound(0);
    }
  }
}
