/**
  What the rotation of core/src/tq_forward.c does to vectors, over exact reals:
  it is a rotation, rotations follow one another by adding angles, and the score
  of a query and a key depends on how far apart their positions are.
 */
module RopeAngles {
  import opened Products
  import opened Rope

  /** Cosine and sine of a sum of two angles. */
  function CosSum(c: real, s: real, c': real, s': real): real {
    c * c' - s * s'
  }

  function SinSum(c: real, s: real, c': real, s': real): real {
    s * c' + c * s'
  }

  /** One turn after another: angles add up. */
  function Then(t: Turn, u: Turn): (r: Turn)
    requires |t.cos| == |t.sin| == |u.cos| == |u.sin|
    ensures |r.cos| == |r.sin| == |t.cos|
  {
    Turn(seq(|t.cos|, i requires 0 <= i < |t.cos| => CosSum(t.cos[i], t.sin[i], u.cos[i], u.sin[i])),
         seq(|t.cos|, i requires 0 <= i < |t.cos| => SinSum(t.cos[i], t.sin[i], u.cos[i], u.sin[i])))
  }

  /** The opposite turn. */
  function Back(t: Turn): (r: Turn)
    requires |t.cos| == |t.sin|
    ensures |r.cos| == |r.sin| == |t.cos|
  {
    Turn(t.cos, seq(|t.sin|, i requires 0 <= i < |t.sin| => -t.sin[i]))
  }

  /** Every pair of cosine and sine lies on the unit circle. */
  ghost predicate Unit(t: Turn)
    requires |t.cos| == |t.sin|
  {
    forall i :: 0 <= i < |t.cos| ==> t.cos[i] * t.cos[i] + t.sin[i] * t.sin[i] == 1.0
  }

  lemma TwoTurns(a: real, b: real, c: real, s: real, c': real, s': real)
    ensures Low(Low(a, b, c, s), High(a, b, c, s), c', s') == Low(a, b, CosSum(c, s, c', s'), SinSum(c, s, c', s'))
    ensures High(Low(a, b, c, s), High(a, b, c, s), c', s') == High(a, b, CosSum(c, s, c', s'), SinSum(c, s, c', s'))
  {
  }

  /** Rotating twice is rotating once by the sum of the angles. */
  lemma AnglesAdd(a: seq<real>, t: Turn, u: Turn)
    requires t.For(|a|) && u.For(|a|)
    ensures PairsHead(PairsHead(a, t), u) == PairsHead(a, Then(t, u))
  {
    var b, w := PairsHead(a, t), Then(t, u);
    hide Low, High, PairsHead, CosSum, SinSum;
    forall j | 0 <= j < |a|
      ensures PairsHead(b, u)[j] == PairsHead(a, w)[j]
    {
      var i := j / 2;
      PairRotated(a, t, i);
      PairRotated(b, u, i);
      PairRotated(a, w, i);
      TwoTurns(a[2 * i], a[2 * i + 1], t.cos[i], t.sin[i], u.cos[i], u.sin[i]);
      assert j == 2 * i || j == 2 * i + 1;
    }
  }

  lemma Still(a: real, b: real)
    ensures Low(a, b, 1.0, 0.0) == a && High(a, b, 1.0, 0.0) == b
  {
  }

  /** Turning back undoes a turn, so no information is lost. */
  lemma BackUndoes(a: seq<real>, t: Turn)
    requires t.For(|a|) && Unit(t)
    ensures PairsHead(PairsHead(a, t), Back(t)) == a
  {
    AnglesAdd(a, t, Back(t));
    var w := Then(t, Back(t));
    forall i | 0 <= i < |w.cos|
      ensures w.cos[i] == 1.0 && w.sin[i] == 0.0
    {
      OnCircle(t.cos[i], t.sin[i]);
    }
    hide *;
    StandsStill(a, w);
  }

  lemma OnCircle(c: real, s: real)
    requires c * c + s * s == 1.0
    ensures CosSum(c, s, c, -s) == CosSum(c, -s, c, s) == 1.0 && SinSum(c, s, c, -s) == SinSum(c, -s, c, s) == 0.0
  {
  }

  lemma StandsStill(a: seq<real>, w: Turn)
    requires w.For(|a|) && forall i :: 0 <= i < |w.cos| ==> w.cos[i] == 1.0 && w.sin[i] == 0.0
    ensures PairsHead(a, w) == a
  {
    hide Low, High, PairsHead;
    forall j | 0 <= j < |a|
      ensures PairsHead(a, w)[j] == a[j]
    {
      PairRotated(a, w, j / 2);
      Still(a[2 * (j / 2)], a[2 * (j / 2) + 1]);
      assert j == 2 * (j / 2) || j == 2 * (j / 2) + 1;
    }
  }

  /** The turn takes the first axis of every pair to (cos, sin) and the second to (-sin, cos). */
  lemma AxesTurn(a: seq<real>, t: Turn, i: nat)
    requires t.For(|a|) && i < |a| / 2
    ensures a[2 * i] == 1.0 && a[2 * i + 1] == 0.0 ==> PairsHead(a, t)[2 * i] == t.cos[i] && PairsHead(a, t)[2 * i + 1] == t.sin[i]
    ensures a[2 * i] == 0.0 && a[2 * i + 1] == 1.0 ==> PairsHead(a, t)[2 * i] == -t.sin[i] && PairsHead(a, t)[2 * i + 1] == t.cos[i]
  {
    PairRotated(a, t, i);
  }

  // --------------------------------------------------------------- the scores

  /** All pairs but the last. */
  function Shorter(t: Turn): (r: Turn)
    requires |t.cos| == |t.sin| > 0
  {
    Turn(t.cos[..|t.cos| - 1], t.sin[..|t.sin| - 1])
  }

  lemma PairsShorter(a: seq<real>, t: Turn)
    requires t.For(|a|) && |a| > 2
    ensures Shorter(t).For(|a| - 2)
    ensures var r := PairsHead(a, t);
      r[..|a| - 2] == PairsHead(a[..|a| - 2], Shorter(t))
  {
    var n := |a| - 2;
    var r, b := PairsHead(a, t), a[..n];
    hide Low, High, PairsHead;
    forall j | 0 <= j < n
      ensures r[j] == PairsHead(b, Shorter(t))[j]
    {
      var i := j / 2;
      PairRotated(a, t, i);
      PairRotated(b, Shorter(t), i);
      assert j == 2 * i || j == 2 * i + 1;
    }
  }

  lemma DotLastPair(a: seq<real>, b: seq<real>)
    requires |a| == |b| >= 2
    ensures var n := |a| - 2;
      RealDot(a, b) == RealDot(a[..n], b[..n]) + (Times(a[n], b[n]) + Times(a[n + 1], b[n + 1]))
  {
    hide *;
    var n := |a| - 2;
    SplitDot(a, b, n);
    assert a[n..] == [a[n], a[n + 1]] && b[n..] == [b[n], b[n + 1]];
    RealDotTwo(a[n], a[n + 1], b[n], b[n + 1]);
  }

  lemma PairScore(a: real, b: real, c: real, s: real, p: real, q: real, c': real, s': real)
    ensures Times(Low(a, b, c, s), Low(p, q, c', s')) + Times(High(a, b, c, s), High(p, q, c', s'))
         == Times(a, Low(p, q, CosSum(c, -s, c', s'), SinSum(c, -s, c', s')))
          + Times(b, High(p, q, CosSum(c, -s, c', s'), SinSum(c, -s, c', s')))
  {
    var x, y := c * c' + s * s', c * s' - s * c';
    assert Low(a, b, c, s) * Low(p, q, c', s')
        == a * p * (c * c') - a * q * (c * s') - b * p * (s * c') + b * q * (s * s');
    assert High(a, b, c, s) * High(p, q, c', s')
        == a * p * (s * s') + a * q * (s * c') + b * p * (c * s') + b * q * (c * c');
    assert a * Low(p, q, x, y) == a * p * (c * c') + a * p * (s * s') - a * q * (c * s') + a * q * (s * c');
    assert b * High(p, q, x, y) == b * p * (c * s') - b * p * (s * c') + b * q * (c * c') + b * q * (s * s');
  }

  lemma LastPairs(a: seq<real>, b: seq<real>, t: Turn, u: Turn)
    requires |a| == |b| && t.For(|a|) && u.For(|a|)
    ensures var (n, w) := (|a| - 2, Then(Back(t), u));
      var (x, y, z) := (PairsHead(a, t), PairsHead(b, u), PairsHead(b, w));
      Times(x[n], y[n]) + Times(x[n + 1], y[n + 1]) == Times(a[n], z[n]) + Times(a[n + 1], z[n + 1])
  {
    var i, w := |a| / 2 - 1, Then(Back(t), u);
    assert |a| - 2 == 2 * i && w.For(|a|);
    assert w.cos[i] == CosSum(t.cos[i], -t.sin[i], u.cos[i], u.sin[i]);
    assert w.sin[i] == SinSum(t.cos[i], -t.sin[i], u.cos[i], u.sin[i]);
    hide Low, High, PairsHead, Times, CosSum, SinSum, Then, Back;
    PairRotated(a, t, i);
    PairRotated(b, u, i);
    PairRotated(b, w, i);
    PairScore(a[2 * i], a[2 * i + 1], t.cos[i], t.sin[i], b[2 * i], b[2 * i + 1], u.cos[i], u.sin[i]);
  }

  lemma ShorterThen(t: Turn, u: Turn)
    requires |t.cos| == |t.sin| == |u.cos| == |u.sin| > 0
    ensures Shorter(Then(Back(t), u)) == Then(Back(Shorter(t)), Shorter(u))
  {
    hide CosSum, SinSum;
    var x, y := Shorter(Then(Back(t), u)), Then(Back(Shorter(t)), Shorter(u));
    assert x.cos == y.cos && x.sin == y.sin;
  }

  /** A score of two rotated vectors is that of one against the other rotated by the difference of the angles. */
  lemma {:induction false} ScoreByDifference(a: seq<real>, b: seq<real>, t: Turn, u: Turn)
    requires |a| == |b| && t.For(|a|) && u.For(|a|)
    ensures RealDot(PairsHead(a, t), PairsHead(b, u)) == RealDot(a, PairsHead(b, Then(Back(t), u)))
    decreases |a|
  {
    var n, w := |a| - 2, Then(Back(t), u);
    var x, y, z := PairsHead(a, t), PairsHead(b, u), PairsHead(b, w);
    assert t.For(n + 2) && u.For(n + 2) && w.For(n + 2);
    LastPairs(a, b, t, u);
    DotLastPair(x, y);
    DotLastPair(a, z);
    if n > 0 {
      PairsShorter(a, t);
      PairsShorter(b, u);
      PairsShorter(b, w);
      ShorterThen(t, u);
      hide PairsHead, RealDot, Times, Then, Back, Shorter;
      ScoreByDifference(a[..n], b[..n], Shorter(t), Shorter(u));
    } else {
      assert x[..n] == y[..n] == a[..n] == z[..n] == [];
    }
  }

  /** Vectors rotated alike keep their product, and so their length. */
  lemma RotationKeepsDot(a: seq<real>, b: seq<real>, t: Turn)
    requires |a| == |b| && t.For(|a|) && Unit(t)
    ensures RealDot(PairsHead(a, t), PairsHead(b, t)) == RealDot(a, b)
  {
    hide CosSum, SinSum, PairsHead, RealDot;
    var w := Then(Back(t), t);
    forall i | 0 <= i < |w.cos|
      ensures w.cos[i] == 1.0 && w.sin[i] == 0.0
    {
      OnCircle(t.cos[i], t.sin[i]);
    }
    assert w.For(|b|);
    hide *;
    ScoreByDifference(a, b, t, t);
    StandsStill(b, w);
  }

  // ------------------------------------------------------------- the positions

  /** Cosine and sine, as far as differences of angles go. */
  datatype Wave = Wave(cos: real -> real, sin: real -> real) {
    ghost predicate Trigonometric() {
      && (forall x, y :: cos(y - x) == CosSum(cos(x), -sin(x), cos(y), sin(y)))
      && (forall x, y :: sin(y - x) == SinSum(cos(x), -sin(x), cos(y), sin(y)))
    }
  }

  /** tq_rope_prepare: the angles of a position, one frequency for every pair. */
  function TurnAt(w: Wave, freq: seq<real>, pos: int): (t: Turn)
    ensures |t.cos| == |t.sin| == |freq|
  {
    Turn(seq(|freq|, i requires 0 <= i < |freq| => w.cos(Times(pos as real, freq[i]))),
         seq(|freq|, i requires 0 <= i < |freq| => w.sin(Times(pos as real, freq[i]))))
  }

  lemma TimesDifference(a: real, b: real, f: real)
    ensures Times(b, f) - Times(a, f) == Times(b - a, f)
  {
  }

  lemma TurnBetween(w: Wave, freq: seq<real>, m: int, n: int)
    requires w.Trigonometric()
    ensures Then(Back(TurnAt(w, freq, m)), TurnAt(w, freq, n)) == TurnAt(w, freq, n - m)
  {
    hide Times, CosSum, SinSum, Wave.Trigonometric;
    var t, r := Then(Back(TurnAt(w, freq, m)), TurnAt(w, freq, n)), TurnAt(w, freq, n - m);
    forall i | 0 <= i < |freq|
      ensures t.cos[i] == r.cos[i] && t.sin[i] == r.sin[i]
    {
      TimesDifference(m as real, n as real, freq[i]);
      AngleBetween(w, Times(m as real, freq[i]), Times(n as real, freq[i]));
    }
    assert t.cos == r.cos && t.sin == r.sin;
  }

  lemma AngleBetween(w: Wave, x: real, y: real)
    requires w.Trigonometric()
    ensures CosSum(w.cos(x), -w.sin(x), w.cos(y), w.sin(y)) == w.cos(y - x)
    ensures SinSum(w.cos(x), -w.sin(x), w.cos(y), w.sin(y)) == w.sin(y - x)
  {
  }

  /** The score of a query at position `m` and a key at `n` depends on n - m only. */
  lemma ScoreDependsOnDistance(w: Wave, freq: seq<real>, q: seq<real>, k: seq<real>, m: int, n: int)
    requires w.Trigonometric() && |q| == |k| == 2 * |freq| && freq != []
    ensures RealDot(PairsHead(q, TurnAt(w, freq, m)), PairsHead(k, TurnAt(w, freq, n)))
         == RealDot(q, PairsHead(k, TurnAt(w, freq, n - m)))
  {
    hide RealDot, PairsHead, TurnAt, Then, Back, Wave.Trigonometric;
    TurnBetween(w, freq, m, n);
    ScoreByDifference(q, k, TurnAt(w, freq, m), TurnAt(w, freq, n));
  }
}
