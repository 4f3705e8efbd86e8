/**
  tq_sample of core/src/tq_sample.c in place: softmax over the logits, then
  greedy, multinomial or nucleus choice.  The exponential is a parameter;
  arithmetic is over exact reals.
 */
module Sampler {
  import opened Generator
  import opened HeapSort
  import opened Nucleus
  import opened Products

  ghost predicate Positive(exp: real -> real) {
    forall x :: exp(x) > 0.0
  }

  function Exps(exp: real -> real, s: seq<real>, top: real): (r: seq<real>)
    ensures |r| == |s|
  {
    seq(|s|, i requires 0 <= i < |s| => exp(s[i] - top))
  }

  function Rescaled(s: seq<real>, k: real): (r: seq<real>)
    ensures |r| == |s|
  {
    seq(|s|, i requires 0 <= i < |s| => Times(s[i], k))
  }

  lemma {:induction false} SumRescaled(s: seq<real>, k: real)
    ensures Sum(Rescaled(s, k)) == Times(Sum(s), k)
  {
    if s != [] {
      var t := s[..|s| - 1];
      assert Rescaled(s, k)[..|s| - 1] == Rescaled(t, k);
      SumRescaled(t, k);
    }
  }

  lemma {:induction false} SumPositive(s: seq<real>)
    requires s != [] && forall i :: 0 <= i < |s| ==> s[i] > 0.0
    ensures Sum(s) > 0.0
  {
    if |s| > 1 {
      SumPositive(s[..|s| - 1]);
    } else {
      assert s[..0] == [];
    }
  }

  /** softmax(l / T), shifted by the largest scaled logit. */
  function Softmax(exp: real -> real, l: seq<real>, temperature: real): (r: seq<real>)
    requires l != [] && temperature > 0.0
    ensures |r| == |l|
  {
    var e := Shifted(exp, Rescaled(l, 1.0 / temperature));
    if Sum(e) == 0.0 then e else Rescaled(e, 1.0 / Sum(e))
  }

  function Shifted(exp: real -> real, s: seq<real>): (r: seq<real>)
    requires s != []
    ensures |r| == |s|
  {
    Exps(exp, s, s[ArgMax(s, |s|)])
  }

  lemma ShiftedPositive(exp: real -> real, s: seq<real>)
    requires Positive(exp) && s != []
    ensures Sum(Shifted(exp, s)) > 0.0 && forall i :: 0 <= i < |s| ==> Shifted(exp, s)[i] > 0.0
  {
    SumPositive(Shifted(exp, s));
  }

  lemma RescaledOrder(s: seq<real>, k: real)
    requires k > 0.0
    ensures forall i :: 0 <= i < |s| && s[i] > 0.0 ==> Rescaled(s, k)[i] > 0.0
    ensures forall i, j :: 0 <= i < |s| && 0 <= j < |s| && s[i] < s[j] ==> Rescaled(s, k)[i] < Rescaled(s, k)[j]
  {
    forall i | 0 <= i < |s| && s[i] > 0.0
      ensures Rescaled(s, k)[i] > 0.0
    {
      TimesOrder(0.0, s[i], k);
    }
    forall i, j | 0 <= i < |s| && 0 <= j < |s| && s[i] < s[j]
      ensures Rescaled(s, k)[i] < Rescaled(s, k)[j]
    {
      TimesOrder(s[i], s[j], k);
    }
  }

  /** The softmax is a distribution, whatever the exponential. */
  lemma SoftmaxIsDistribution(exp: real -> real, l: seq<real>, temperature: real)
    requires Positive(exp) && l != [] && temperature > 0.0
    ensures Distribution(Softmax(exp, l, temperature))
    ensures forall i :: 0 <= i < |l| ==> Softmax(exp, l, temperature)[i] > 0.0
  {
    var s := Rescaled(l, 1.0 / temperature);
    var e := Shifted(exp, s);
    ShiftedPositive(exp, s);
    hide Rescaled, Shifted, Positive;
    assert Times(Sum(e), 1.0 / Sum(e)) == 1.0;
    hide Times;
    SumRescaled(e, 1.0 / Sum(e));
    RescaledOrder(e, 1.0 / Sum(e));
  }

  lemma ShiftedOrder(exp: real -> real, s: seq<real>, i: nat, j: nat)
    requires i < |s| && j < |s| && s[i] < s[j] && forall a, b :: a < b ==> exp(a) < exp(b)
    ensures Shifted(exp, s)[i] < Shifted(exp, s)[j]
  {
    var top := s[ArgMax(s, |s|)];
    assert exp(s[i] - top) < exp(s[j] - top);
  }

  /** ... and ranks the tokens as the logits do, when the exponential is increasing. */
  lemma SoftmaxKeepsOrder(exp: real -> real, l: seq<real>, temperature: real, i: nat, j: nat)
    requires Positive(exp) && temperature > 0.0 && i < |l| && j < |l| && l[i] < l[j]
    requires forall a, b :: a < b ==> exp(a) < exp(b)
    ensures Softmax(exp, l, temperature)[i] < Softmax(exp, l, temperature)[j]
  {
    hide Rescaled, Shifted, Times, Positive;
    var s := Rescaled(l, 1.0 / temperature);
    var e := Shifted(exp, s);
    RescaledOrder(l, 1.0 / temperature);
    ShiftedOrder(exp, s, i, j);
    ShiftedPositive(exp, s);
    RescaledOrder(e, 1.0 / Sum(e));
  }

  /** Turns sums into products, as an exponential does. */
  ghost predicate Exponential(exp: real -> real) {
    Positive(exp) && forall a, b :: exp(a + b) == Times(exp(a), exp(b))
  }

  /** Two results stand to each other as the exponentials of the logits over the temperature. */
  lemma SoftmaxRatio(exp: real -> real, l: seq<real>, temperature: real, i: nat, j: nat)
    requires Exponential(exp) && temperature > 0.0 && i < |l| && j < |l|
    ensures var r := Softmax(exp, l, temperature);
      Times(r[i], exp(l[j] / temperature)) == Times(r[j], exp(l[i] / temperature))
  {
    hide *;
    var s := Rescaled(l, 1.0 / temperature);
    var e := Shifted(exp, s);
    var top := ShiftedBy(exp, l, 1.0 / temperature);
    ExponentialPositive(exp);
    ShiftedPositive(exp, s);
    Unshifted(exp, l[i], temperature, top);
    Unshifted(exp, l[j], temperature, top);
    SoftmaxOf(exp, l, temperature, e);
    CrossTerms(e[i], e[j], 1.0 / Sum(e), exp(top));
  }

  lemma ExponentialPositive(exp: real -> real)
    requires Exponential(exp)
    ensures Positive(exp)
  {
  }

  lemma ShiftedBy(exp: real -> real, l: seq<real>, k: real) returns (top: real)
    requires l != []
    ensures |Rescaled(l, k)| == |l|
    ensures forall i :: 0 <= i < |l| ==> Shifted(exp, Rescaled(l, k))[i] == exp(Times(l[i], k) - top)
  {
    var s := Rescaled(l, k);
    top := s[ArgMax(s, |s|)];
  }

  lemma Unshifted(exp: real -> real, x: real, temperature: real, top: real)
    requires Exponential(exp) && temperature > 0.0
    ensures exp(x / temperature) == Times(exp(Times(x, 1.0 / temperature) - top), exp(top))
  {
    var y := Times(x, 1.0 / temperature);
    assert y == x / temperature;
    hide Times;
    assert y - top + top == y;
    assert exp(y - top + top) == Times(exp(y - top), exp(top));
  }

  lemma SoftmaxOf(exp: real -> real, l: seq<real>, temperature: real, e: seq<real>)
    requires l != [] && temperature > 0.0 && e == Shifted(exp, Rescaled(l, 1.0 / temperature)) && Sum(e) > 0.0
    ensures |e| == |l| && forall i :: 0 <= i < |l| ==> Softmax(exp, l, temperature)[i] == Times(e[i], 1.0 / Sum(e))
  {
    hide Shifted;
  }

  lemma CrossTerms(a: real, b: real, k: real, c: real)
    ensures Times(Times(a, k), Times(b, c)) == Times(Times(b, k), Times(a, c))
  {
  }

  lemma {:induction false} SumOrder(a: seq<real>, b: seq<real>)
    requires |a| == |b| && forall i :: 0 <= i < |a| ==> a[i] <= b[i]
    ensures Sum(a) <= Sum(b)
  {
    if a != [] {
      SumOrder(a[..|a| - 1], b[..|b| - 1]);
    }
  }

  lemma CoolerGap(d: real, cool: real, warm: real)
    requires d <= 0.0 && 0.0 < cool <= warm
    ensures Times(d, 1.0 / cool) <= Times(d, 1.0 / warm)
  {
    var x, y := 1.0 / cool, 1.0 / warm;
    assert x * cool == 1.0 && y * warm == 1.0;
    if x < y {
      assert x * cool < y * cool <= y * warm;
    }
  }

  lemma RescaledTop(l: seq<real>, k: real, m: nat)
    requires k > 0.0 && m < |l| && forall i :: 0 <= i < |l| ==> l[i] <= l[m]
    ensures var s := Rescaled(l, k); s[ArgMax(s, |s|)] == s[m]
    ensures forall i :: 0 <= i < |l| ==> Rescaled(l, k)[i] - Rescaled(l, k)[m] == Times(l[i] - l[m], k)
  {
    var s := Rescaled(l, k);
    forall i | 0 <= i < |l|
      ensures s[i] <= s[m]
    {
      if l[i] < l[m] {
        TimesOrder(l[i], l[m], k);
      }
    }
  }

  /** What the exponentials add up to is less the cooler it is. */
  lemma CoolerSum(exp: real -> real, l: seq<real>, cool: real, warm: real, m: nat)
    requires Positive(exp) && (forall a, b :: a <= b ==> exp(a) <= exp(b))
    requires 0.0 < cool <= warm && m < |l| && forall i :: 0 <= i < |l| ==> l[i] <= l[m]
    ensures var (c, w) := (Shifted(exp, Rescaled(l, 1.0 / cool)), Shifted(exp, Rescaled(l, 1.0 / warm)));
      c[m] == w[m] > 0.0 && 0.0 < Sum(c) <= Sum(w)
  {
    RescaledTop(l, 1.0 / cool, m);
    RescaledTop(l, 1.0 / warm, m);
    var s, t := Rescaled(l, 1.0 / cool), Rescaled(l, 1.0 / warm);
    var c, w := Shifted(exp, s), Shifted(exp, t);
    ShiftedPositive(exp, s);
    hide Rescaled, Times, ArgMax;
    forall i | 0 <= i < |l|
      ensures c[i] <= w[i]
    {
      CoolerGap(l[i] - l[m], cool, warm);
      assert s[i] - s[m] <= t[i] - t[m];
    }
    SumOrder(c, w);
  }

  /** A lower temperature never lowers the share of the likeliest token. */
  lemma CoolerIsSharper(exp: real -> real, l: seq<real>, cool: real, warm: real, m: nat)
    requires Positive(exp) && (forall a, b :: a <= b ==> exp(a) <= exp(b))
    requires 0.0 < cool <= warm && m < |l| && forall i :: 0 <= i < |l| ==> l[i] <= l[m]
    ensures Softmax(exp, l, cool)[m] >= Softmax(exp, l, warm)[m]
  {
    CoolerSum(exp, l, cool, warm, m);
    var c, w := Shifted(exp, Rescaled(l, 1.0 / cool)), Shifted(exp, Rescaled(l, 1.0 / warm));
    SoftmaxOf(exp, l, cool, c);
    SoftmaxOf(exp, l, warm, w);
    hide *;
    SmallerSum(c[m], Sum(c), Sum(w));
  }

  lemma SmallerSum(a: real, s: real, t: real)
    requires a > 0.0 && 0.0 < s <= t
    ensures Times(a, 1.0 / s) >= Times(a, 1.0 / t)
  {
    CoolerGap(-a, s, t);
  }

  lemma TimesOrder(a: real, b: real, k: real)
    requires a < b && k > 0.0
    ensures Times(a, k) < Times(b, k) && Times(0.0, k) == 0.0
  {
  }

  /** The token the code returns, all branches. */
  function Sampled(exp: real -> real, l: seq<real>, temperature: real, topp: real, scratch: bool, u: real): int
    requires l != []
  {
    if temperature <= 0.0 then ArgMax(l, |l|)
    else
      var x := Softmax(exp, l, temperature);
      if topp <= 0.0 || topp >= 1.0 || !scratch then Cut(x, u, 0) else NucleusToken(x, topp, u)
  }

  /** Whether a number is drawn: not for the greedy choice, nor when no candidate is left. */
  predicate Draws(exp: real -> real, l: seq<real>, temperature: real, topp: real, scratch: bool)
    requires l != []
  {
    temperature > 0.0
    && (topp <= 0.0 || topp >= 1.0 || !scratch || (|l| > 1 && Candidates(Softmax(exp, l, temperature), topp) != []))
  }

  class TqSampler {
    var rng: bv64
    var temperature: real
    var topp: real
    var idx: array?<int>
    var prob: array?<real>
    const exp: real -> real

    /** tq_sampler_init. */
    constructor (temperature: real, topp: real, seed: bv64, idx: array?<int>, prob: array?<real>, exp: real -> real)
      ensures this.temperature == temperature && this.topp == topp && this.idx == idx && this.prob == prob
      ensures this.exp == exp && rng == Seeded(seed) != 0
    {
      rng := Seeded(seed);
      this.temperature, this.topp, this.idx, this.prob, this.exp := temperature, topp, idx, prob, exp;
    }

    ghost predicate Scratch(n: nat)
      reads this
    {
      (idx != null ==> idx.Length >= n) && (prob != null ==> prob.Length >= n)
    }

    /** tq_rand_f32. */
    method Rand() returns (u: real)
      modifies `rng
      ensures rng == Next(old(rng)) && u == Draw(rng) && 0.0 <= u < 1.0
      ensures old(rng) != 0 ==> rng != 0
    {
      if rng != 0 {
        NextNotZero(rng);
      }
      hide Next, Draw;
      rng := Next(rng);
      u := Draw(rng);
    }

    static method ArgMaxOf(v: array<real>, n: nat) returns (best: nat)
      requires 1 <= n <= v.Length
      ensures best == ArgMax(v[..], n)
    {
      best := 0;
      for i := 1 to n
        invariant best == ArgMax(v[..], i)
      {
        if v[i] > v[best] {
          best := i;
        }
      }
    }

    static method ScaleAll(logits: array<real>, k: real)
      modifies logits
      ensures logits[..] == Rescaled(old(logits[..]), k)
    {
      for i := 0 to logits.Length
        invariant forall j :: 0 <= j < i ==> logits[j] == Times(old(logits[j]), k)
        invariant forall j :: i <= j < logits.Length ==> logits[j] == old(logits[j])
      {
        logits[i] := Times(logits[i], k);
      }
    }

    /** Exponentials in place, and their sum. */
    method ExpAll(logits: array<real>, max: real) returns (sum: real)
      modifies logits
      ensures logits[..] == Exps(exp, old(logits[..]), max) && sum == Sum(logits[..])
    {
      sum := 0.0;
      for i := 0 to logits.Length
        invariant forall j :: 0 <= j < i ==> logits[j] == exp(old(logits[j]) - max)
        invariant forall j :: i <= j < logits.Length ==> logits[j] == old(logits[j])
        invariant sum == Sum(logits[..i])
      {
        ghost var had := logits[..i];
        logits[i] := exp(logits[i] - max);
        sum := sum + logits[i];
        assert logits[..i + 1][..i] == had;
      }
      assert logits[..logits.Length] == logits[..];
    }

    /** softmax(logits / T) in place. */
    method SoftmaxInPlace(logits: array<real>)
      requires logits.Length >= 1 && temperature > 0.0 && Positive(exp) && logits != prob
      modifies logits
      ensures logits[..] == Softmax(exp, old(logits[..]), temperature)
    {
      ScaleAll(logits, 1.0 / temperature);
      var m := ArgMaxOf(logits, logits.Length);
      ShiftedPositive(exp, logits[..]);
      var sum := ExpAll(logits, logits[m]);
      ScaleAll(logits, 1.0 / sum);
    }

    /** Adds up until the sum passes `r`; the last place if it never does. */
    static method WalkTo(a: array<real>, last: nat, r: real) returns (at: nat)
      requires last < a.Length
      ensures at == Cut(a[..last + 1], r, 0)
    {
      var cdf := 0.0;
      ghost var q := a[..last + 1];
      at := 0;
      while at <= last
        invariant at <= last + 1
        invariant cdf == Sum(q[..at])
        invariant at <= last ==> Cut(q, r, 0) == Cut(q, r, at)
        invariant at == last + 1 ==> Cut(q, r, 0) == last
      {
        assert q[..at + 1][..at] == q[..at];
        cdf := cdf + a[at];
        if r < cdf {
          return;
        }
        at := at + 1;
      }
      return last;
    }

    /** The prefilter loop. */
    static method Prefilter(logits: array<real>, prob: array<real>, idx: array<int>, cutoff: real) returns (k: nat)
      requires prob.Length >= logits.Length && idx.Length >= logits.Length && logits != prob
      modifies prob, idx
      ensures k <= logits.Length && logits[..] == old(logits[..])
      ensures Entries(prob, idx, k) == Keep(All(logits[..]), cutoff)
    {
      ghost var all := All(logits[..]);
      k := 0;
      for i := 0 to logits.Length
        invariant k <= i && logits[..] == old(logits[..])
        invariant Entries(prob, idx, k) == Keep(all[..i], cutoff)
      {
        KeepNext(all, i, cutoff);
        ghost var had := Entries(prob, idx, k);
        if logits[i] >= cutoff {
          idx[k] := i;
          prob[k] := logits[i];
          k := k + 1;
          assert Entries(prob, idx, k) == had + [all[i]];
        }
      }
      assert all[..logits.Length] == all;
    }

    /** The cut: the running sum at the place it stops, and that place. */
    static method FindEnd(prob: array<real>, k: nat, p: real) returns (last: nat, cum: real)
      requires 0 < k <= prob.Length
      ensures last == End(prob[..k], p) && cum == Sum(prob[..last + 1])
    {
      ghost var q := prob[..k];
      cum := 0.0;
      last := k - 1;
      var i := 0;
      while i < k
        invariant i <= k
        invariant cum == Sum(prob[..i])
        invariant i < k ==> Cut(q, p, 0) == Cut(q, p, i)
        invariant i == k ==> Cut(q, p, 0) == k - 1
      {
        assert prob[..i + 1][..i] == prob[..i] && q[..i + 1] == prob[..i + 1];
        cum := cum + prob[i];
        if cum > p {
          return i, cum;
        }
        i := i + 1;
      }
    }

    /** tq_sample. */
    method Sample(logits: array<real>) returns (token: int)
      requires logits.Length >= 1 && Positive(exp) && Scratch(logits.Length) && logits != prob
      modifies `rng, logits, if idx == null then {} else {idx}, if prob == null then {} else {prob}
      ensures token == Sampled(exp, old(logits[..]), temperature, topp, idx != null && prob != null, Draw(Next(old(rng))))
      ensures rng == if Draws(exp, old(logits[..]), temperature, topp, idx != null && prob != null) then Next(old(rng)) else old(rng)
      ensures temperature > 0.0 ==> logits[..] == Softmax(exp, old(logits[..]), temperature)
    {
      hide Next, Draw, Softmax, NucleusToken, Candidates, Cut, ArgMax;
      var n := logits.Length;
      if temperature <= 0.0 {
        token := ArgMaxOf(logits, n);
        return;
      }
      SoftmaxInPlace(logits);
      ghost var x := logits[..];
      if topp <= 0.0 || topp >= 1.0 || idx == null || prob == null {
        var u := Rand();
        token := WalkTo(logits, n - 1, u);
        assert logits[..n - 1 + 1] == x;
        return;
      }
      token := SampleNucleus(logits, prob, idx);
    }

    method SampleNucleus(logits: array<real>, prob: array<real>, idx: array<int>) returns (token: int)
      requires logits.Length >= 1 && prob.Length >= logits.Length && idx.Length >= logits.Length && logits != prob
      requires 0.0 < topp < 1.0
      modifies `rng, prob, idx
      ensures token == NucleusToken(logits[..], topp, Draw(Next(old(rng)))) && logits[..] == old(logits[..])
      ensures rng == if logits.Length > 1 && Candidates(logits[..], topp) != [] then Next(old(rng)) else old(rng)
    {
      hide Next, Draw;
      var n := logits.Length;
      ghost var x := logits[..];
      // a single token: the float cutoff is infinite and nothing passes it
      if n == 1 {
        token := ArgMaxOf(logits, n);
        return;
      }
      var k := Prefilter(logits, prob, idx, Cutoff(topp, n));
      if k == 0 {
        assert Candidates(x, topp) == [] by {
          assert Keep(All(x), Cutoff(topp, n)) == [];
        }
        token := ArgMaxOf(logits, n);
        return;
      }
      TqHeapSortDesc(prob, idx, k);
      ghost var f := Candidates(x, topp);
      assert Entries(prob, idx, k) == f;
      assert prob[..k] == Probs(f);
      hide Candidates, SortDesc, Keep;
      var last, cum := FindEnd(prob, k, topp);
      assert prob[..last + 1] == Probs(f)[..last + 1];
      var u := Rand();
      var at := WalkTo(prob, last, Times(u, cum));
      assert f[at].idx == idx[at];
      return idx[at];
    }
  }

  lemma KeepNext(all: seq<Entry>, i: nat, c: real)
    requires i < |all|
    ensures Keep(all[..i + 1], c) == Keep(all[..i], c) + if all[i].prob >= c then [all[i]] else []
  {
    assert all[..i + 1][..i] == all[..i];
  }

  /** Whatever the settings, the sampler returns a token of the vocabulary. */
  lemma SampledIsToken(exp: real -> real, l: seq<real>, temperature: real, topp: real, scratch: bool, u: real)
    requires Positive(exp) && l != [] && 0.0 <= u < 1.0
    ensures 0 <= Sampled(exp, l, temperature, topp, scratch, u) < |l|
  {
    if temperature > 0.0 && 0.0 < topp < 1.0 && scratch {
      var x := Softmax(exp, l, temperature);
      SoftmaxIsDistribution(exp, l, temperature);
      SortDescSorts(All(x));
      PrefilterDrawsTheSame(x, topp, u, SortDesc(All(x)));
    }
  }

  /** Plain multinomial: the token whose slice of [0, 1) holds the draw. */
  lemma MultinomialSlice(exp: real -> real, l: seq<real>, temperature: real, topp: real, u: real)
    requires Positive(exp) && l != [] && temperature > 0.0 && 0.0 <= u < 1.0
    ensures var x := Softmax(exp, l, temperature);
      var t := Sampled(exp, l, temperature, topp, false, u);
      0 <= t < |l| && Sum(x[..t]) <= u < Sum(x[..t + 1])
  {
    var x := Softmax(exp, l, temperature);
    SoftmaxIsDistribution(exp, l, temperature);
    assert x[..0] == [];
    CutSlice(x, u, 0);
  }

  /** Nucleus sampling: the sampled token's probability is what full sorting draws. */
  lemma NucleusSlice(exp: real -> real, l: seq<real>, temperature: real, topp: real, u: real, q: seq<Entry>)
    requires Positive(exp) && l != [] && temperature > 0.0 && 0.0 < topp < 1.0 && 0.0 <= u < 1.0
    requires Ranking(q, Softmax(exp, l, temperature))
    ensures var x := Softmax(exp, l, temperature);
      var t := Sampled(exp, l, temperature, topp, true, u);
      var all := Probs(q);
      && 0 <= t < |l| == |q|
      && exists d :: 0 <= d <= End(all, topp) && x[t] == q[d].prob
                     && Sum(all[..d]) <= Times(u, Sum(all[..End(all, topp) + 1])) < Sum(all[..d + 1])
  {
    var x := Softmax(exp, l, temperature);
    var all := Probs(q);
    SoftmaxIsDistribution(exp, l, temperature);
    RankingIsDistribution(q, x);
    PrefilterDrawsTheSame(x, topp, u, q);
    NucleusHasMass(q, x, topp);
    DrawnSlice(all, topp, u);
  }

  lemma NucleusHasMass(q: seq<Entry>, x: seq<real>, p: real)
    requires x != [] && Ranking(q, x) && Distribution(x) && 0.0 < p < 1.0
    ensures q != [] && Sum(Probs(q)[..End(Probs(q), p) + 1]) > 0.0
  {
    RankingIsDistribution(q, x);
    var all := Probs(q);
    assert all[..0] == [];
    CutSlice(all, p, 0);
  }
}
