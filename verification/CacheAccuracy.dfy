/**
  What a cell of the KV cache is worth, over exact reals: scores and sums read
  from it are those of a stored vector, and the int8 cache stores every head to
  half a step of its own scale.
 */
module CacheAccuracy {
  import opened KvCache
  import opened Products

  /** tq_kv_store's rounding: half away from zero, then the clamp. */
  function Rounded(x: real): int8 {
    var q := Truncate(if x < 0.0 then x - 0.5 else x + 0.5);
    if q > 127 then 127 else if q < -127 then -127 else q
  }

  /** The operations of exact reals. */
  function Exactly(): Arith<real> {
    Arith(0.0, (a: real, b: real) => a + b, (a: real, b: real) => Times(a, b), (a: real, b: real) => a > b,
          (a: real) => Abs(a), (a: real) => a / 127.0, (s: real) => if s != 0.0 then 1.0 / s else 0.0,
          Rounded, (q: int8) => q as real)
  }

  /** The vector a cell stands for. */
  function Stored(c: Cell<real>): (s: seq<real>) {
    match c
    case Exact(v) => v
    case Quantized(q, scale) => seq(|q|, i requires 0 <= i < |q| => Times(q[i] as real, scale))
  }

  lemma {:induction false} DotIsRealDot(q: seq<real>, k: seq<real>)
    requires |q| == |k|
    ensures KvCache.Dot(Exactly(), q, k) == RealDot(q, k)
  {
    if q != [] {
      DotIsRealDot(q[..|q| - 1], k[..|k| - 1]);
    }
  }

  lemma TimesAssoc(a: real, b: real, c: real)
    ensures Times(Times(a, b), c) == Times(a, Times(b, c))
    ensures Times(Times(a, c), b) == Times(a, Times(b, c))
  {
  }

  lemma TimesSum(a: real, b: real, c: real)
    ensures Times(a + b, c) == Times(a, c) + Times(b, c) && Times(0.0, c) == 0.0
  {
  }

  lemma {:induction false} DotScaled(q: seq<real>, k: seq<int8>, scale: real)
    requires |q| == |k|
    ensures Times(RealDot(q, Widen(Exactly(), k)), scale) == RealDot(q, Stored(Quantized(k, scale)))
  {
    hide Times;
    var n := |q|;
    if n == 0 {
      TimesSum(0.0, 0.0, scale);
    } else {
      var q', k' := q[..n - 1], k[..n - 1];
      DotScaled(q', k', scale);
      assert Widen(Exactly(), k)[..n - 1] == Widen(Exactly(), k');
      assert Stored(Quantized(k, scale))[..n - 1] == Stored(Quantized(k', scale));
      assert Widen(Exactly(), k)[n - 1] == k[n - 1] as real && Stored(Quantized(k, scale))[n - 1] == Times(k[n - 1] as real, scale);
      hide Widen, Stored, Exactly;
      TimesSum(RealDot(q', Widen(Exactly(), k')), Times(q[n - 1], k[n - 1] as real), scale);
      TimesAssoc(q[n - 1], k[n - 1] as real, scale);
    }
  }

  /** A score read from a cell is the product with the stored vector. */
  lemma ScoreReads(q: seq<real>, c: Cell<real>)
    requires |Stored(c)| == |q|
    ensures DotCell(Exactly(), q, c) == RealDot(q, Stored(c))
  {
    match c
    case Exact(k) =>
      DotIsRealDot(q, k);
    case Quantized(k, scale) =>
      DotIsRealDot(q, Widen(Exactly(), k));
      DotScaled(q, k, scale);
  }

  /** Adding from a cell adds the stored vector. */
  lemma SumReads(out: seq<real>, a: real, c: Cell<real>, i: nat)
    requires |Stored(c)| == |out| && i < |out|
    ensures AxpyCell(Exactly(), out, a, c)[i] == out[i] + Times(a, Stored(c)[i])
  {
    match c
    case Exact(v) =>
    case Quantized(v, scale) =>
      TimesAssoc(a, v[i] as real, scale);
      hide Times;
  }

  // ------------------------------------------------------------ quantisation

  /** The scan finds the largest magnitude. */
  lemma {:induction false} AbsMaxIsLargest(s: seq<real>)
    ensures forall i :: 0 <= i < |s| ==> Abs(s[i]) <= AbsMax(Exactly(), s)
    ensures AbsMax(Exactly(), s) == 0.0 || exists i :: 0 <= i < |s| && Abs(s[i]) == AbsMax(Exactly(), s)
    ensures AbsMax(Exactly(), s) >= 0.0
  {
    if s != [] {
      var t := s[..|s| - 1];
      AbsMaxIsLargest(t);
      hide Abs;
      assert forall i :: 0 <= i < |t| ==> t[i] == s[i];
    }
  }

  lemma {:induction false} QuantAt(s: seq<real>, inv: real, i: nat)
    requires i < |s|
    ensures QuantWith(Exactly(), s, inv)[i] == Rounded(Times(s[i], inv))
  {
    if i < |s| - 1 {
      QuantAt(s[..|s| - 1], inv, i);
    }
  }

  lemma RoundedNear(x: real)
    requires -127.0 <= x <= 127.0
    ensures -0.5 <= Rounded(x) as real - x <= 0.5
  {
  }

  lemma Unscaled(x: real, k: real)
    requires k > 0.0
    ensures Times(Times(x, 1.0 / k), k) == x
  {
  }

  lemma OrderScaled(a: real, b: real, k: real)
    requires k > 0.0
    ensures a <= b <==> Times(a, k) <= Times(b, k)
  {
    if a < b {
      assert (b - a) * k > 0.0;
    } else if b < a {
      assert (a - b) * k > 0.0;
    }
  }

  lemma HalfStep(q: real, y: real, k: real)
    requires -0.5 <= q - y <= 0.5 && k > 0.0
    ensures Abs(Times(q, k) - Times(y, k)) <= k / 2.0
  {
    OrderScaled(q - y, 0.5, k);
    OrderScaled(-0.5, q - y, k);
    assert Times(q - y, k) == Times(q, k) - Times(y, k);
  }

  lemma StepBack(x: real, top: real, q: int8)
    requires top > 0.0 && Abs(x) <= top && q == Rounded(Times(x, 1.0 / (top / 127.0)))
    ensures Abs(Times(q as real, top / 127.0) - x) <= top / 254.0
  {
    var k := top / 127.0;
    var y := Times(x, 1.0 / k);
    assert Times(127.0, k) == top && Times(-127.0, k) == -top;
    Unscaled(x, k);
    hide Times;
    OrderScaled(y, 127.0, k);
    OrderScaled(-127.0, y, k);
    RoundedNear(y);
    hide Rounded;
    HalfStep(q as real, y, k);
  }

  /**
    Encoding a head loses nothing in a float cache, and in an int8 cache at most
    a 254th part of the head's largest magnitude at any value.
   */
  lemma EncodeAccuracy(quantized: bool, s: seq<real>, i: nat)
    requires i < |s|
    ensures var r := Stored(Encode(Exactly(), quantized, s));
      && |r| == |s|
      && (!quantized ==> r[i] == s[i])
      && Abs(r[i] - s[i]) <= AbsMax(Exactly(), s) / 254.0
  {
    AbsMaxIsLargest(s);
    var top := AbsMax(Exactly(), s);
    if quantized {
      var inv := if top / 127.0 != 0.0 then 1.0 / (top / 127.0) else 0.0;
      QuantAt(s, inv, i);
      assert QuantHead(Exactly(), s) == QuantWith(Exactly(), s, inv);
      hide QuantWith, AbsMax;
      if top > 0.0 {
        StepBack(s[i], top, Rounded(Times(s[i], inv)));
      } else {
        assert s[i] == 0.0 && Times(s[i], inv) == 0.0;
        assert Times(0.0, top / 127.0) == 0.0;
      }
    }
  }
}
