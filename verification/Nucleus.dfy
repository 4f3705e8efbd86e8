/**
  Top-p sampling of core/src/tq_sample.c over exact reals: dropping everything
  below (1 - p) / (n - 1) before sorting picks what sorting everything picks.
 */
module Nucleus {
  import opened Products
  import opened HeapSort

  // ------------------------------------------------------------------- sums

  /** Accumulated left to right. */
  function Sum(s: seq<real>): real {
    if s == [] then 0.0 else Sum(s[..|s| - 1]) + s[|s| - 1]
  }

  lemma {:induction false} SumConcat(a: seq<real>, b: seq<real>)
    ensures Sum(a + b) == Sum(a) + Sum(b)
  {
    if b == [] {
      assert a + b == a;
    } else {
      assert (a + b)[..|a + b| - 1] == a + b[..|b| - 1];
      SumConcat(a, b[..|b| - 1]);
    }
  }

  lemma SumOne(x: real)
    ensures Sum([x]) == x
  {
    assert [x][..0] == [];
  }

  /** Permuted lists stay permuted when the same element leaves both. */
  lemma TakeOneOut<T>(a: seq<T>, b: seq<T>) returns (j: nat)
    requires a != [] && multiset(a) == multiset(b)
    ensures j < |b| && b[j] == a[0] && b == b[..j] + [a[0]] + b[j + 1..]
    ensures multiset(a[1..]) == multiset(b[..j] + b[j + 1..])
  {
    var x := a[0];
    WithoutElement(a, 0);
    assert a[..0] + a[1..] == a[1..];
    assert x in multiset(a);
    j :| 0 <= j < |b| && b[j] == x;
    WithoutElement(b, j);
  }

  lemma WithoutElement<T>(a: seq<T>, j: nat)
    requires j < |a|
    ensures a == a[..j] + [a[j]] + a[j + 1..]
    ensures multiset(a[..j] + a[j + 1..]) == multiset(a) - multiset{a[j]}
  {
    var l, r := a[..j], a[j + 1..];
    assert a == l + [a[j]] + r;
    assert multiset(l + r) == multiset(l) + multiset(r);
    assert multiset(l + [a[j]] + r) == multiset(l) + multiset{a[j]} + multiset(r);
  }

  /** A sum does not depend on the order. */
  lemma {:induction false} SumPermuted(a: seq<real>, b: seq<real>)
    requires multiset(a) == multiset(b)
    ensures Sum(a) == Sum(b)
  {
    if a == [] {
      assert |multiset(b)| == 0;
    } else {
      var x, rest := a[0], a[1..];
      var j := TakeOneOut(a, b);
      var u, v := b[..j], b[j + 1..];
      assert a == [x] + rest;
      SumPermuted(rest, u + v);
      SumOne(x);
      SumConcat([x], rest);
      SumConcat(u + [x], v);
      SumConcat(u, [x]);
      SumConcat(u, v);
    }
  }

  lemma {:induction false} SumBound(s: seq<real>, bound: real)
    requires forall i :: 0 <= i < |s| ==> s[i] <= bound
    ensures Sum(s) <= Times(|s| as real, bound)
  {
    if s != [] {
      var t := s[..|s| - 1];
      SumBound(t, bound);
      assert |s| as real * bound == |t| as real * bound + bound;
    }
  }

  // ------------------------------------------------- entries and their order

  /** Every token with its probability, in vocabulary order. */
  function All(x: seq<real>): (r: seq<Entry>)
    ensures |r| == |x|
  {
    seq(|x|, i requires 0 <= i < |x| => Entry(x[i], i))
  }

  function Probs(s: seq<Entry>): (r: seq<real>)
    ensures |r| == |s|
  {
    seq(|s|, i requires 0 <= i < |s| => s[i].prob)
  }

  /** What the prefilter lets through, in order. */
  function Keep(s: seq<Entry>, c: real): (r: seq<Entry>)
    ensures |r| <= |s|
  {
    if s == [] then []
    else
      var last := s[|s| - 1];
      Keep(s[..|s| - 1], c) + if last.prob >= c then [last] else []
  }

  lemma {:induction false} KeepCounts(s: seq<Entry>, c: real, e: Entry)
    ensures multiset(Keep(s, c))[e] == if e.prob >= c then multiset(s)[e] else 0
  {
    if s != [] {
      var t, last := s[..|s| - 1], s[|s| - 1];
      assert s == t + [last];
      KeepCounts(t, c, e);
    }
  }

  lemma KeepPermuted(a: seq<Entry>, b: seq<Entry>, c: real)
    requires multiset(a) == multiset(b)
    ensures multiset(Keep(a, c)) == multiset(Keep(b, c))
  {
    hide Keep;
    forall e
      ensures multiset(Keep(a, c))[e] == multiset(Keep(b, c))[e]
    {
      KeepCounts(a, c, e);
      KeepCounts(b, c, e);
    }
    assert forall e :: multiset(Keep(a, c))[e] == multiset(Keep(b, c))[e];
  }

  /** The first `k` entries reach `c`, no later one does. */
  ghost predicate Above(q: seq<Entry>, c: real, k: nat) {
    k <= |q| && (forall i :: 0 <= i < k ==> q[i].prob >= c) && (forall i :: k <= i < |q| ==> q[i].prob < c)
  }

  lemma AboveExtends(t: seq<Entry>, last: Entry, c: real, k: nat)
    requires Descending(t + [last]) && Above(t, c, k)
    ensures if last.prob >= c then k == |t| && Above(t + [last], c, k + 1) else Above(t + [last], c, k)
    ensures Descending(t) && k <= |t|
  {
    var q := t + [last];
    assert forall i :: 0 <= i < |t| ==> q[i] == t[i];
    assert forall i :: 0 <= i < |t| ==> q[i].prob >= q[|t|].prob;
    assert k < |t| ==> q[k] == t[k] && t[k].prob < c;
  }

  /** In descending order the prefilter keeps a prefix. */
  lemma {:induction false} KeepIsPrefix(q: seq<Entry>, c: real)
    requires Descending(q)
    ensures Above(q, c, |Keep(q, c)|) && Keep(q, c) == q[..|Keep(q, c)|]
  {
    hide *;
    if q != [] {
      var t, last := q[..|q| - 1], q[|q| - 1];
      assert q == t + [last];
      DescendingPrefix(q, |t|);
      KeepIsPrefix(t, c);
      KeepLast(t, last, c);
      AboveExtends(t, last, c, |Keep(t, c)|);
      PrefixThen(t, last, Keep(t, c));
    } else {
      KeepNone(c);
    }
  }

  lemma KeepNone(c: real)
    ensures Keep([], c) == [] && Above([], c, 0)
  {
  }

  lemma KeepLast(t: seq<Entry>, last: Entry, c: real)
    ensures Keep(t + [last], c) == Keep(t, c) + if last.prob >= c then [last] else []
  {
  }

  lemma PrefixThen(t: seq<Entry>, last: Entry, k: seq<Entry>)
    requires |k| <= |t| && k == t[..|k|]
    ensures k == (t + [last])[..|k|] && (|k| == |t| ==> k + [last] == (t + [last])[..|k| + 1])
  {
  }

  lemma {:induction false} ProbsPermuted(a: seq<Entry>, b: seq<Entry>)
    requires multiset(a) == multiset(b)
    ensures multiset(Probs(a)) == multiset(Probs(b))
  {
    if a == [] {
      assert |multiset(b)| == 0;
    } else {
      var x, rest := a[0], a[1..];
      var j := TakeOneOut(a, b);
      var u, v := b[..j], b[j + 1..];
      assert a == [x] + rest;
      ProbsPermuted(rest, u + v);
      assert Probs(a) == [x.prob] + Probs(rest);
      assert Probs(b) == Probs(u) + [x.prob] + Probs(v);
      assert Probs(u + v) == Probs(u) + Probs(v);
    }
  }

  ghost predicate Falling(s: seq<real>) {
    forall i, j :: 0 <= i < j < |s| ==> s[i] >= s[j]
  }

  lemma FallingHead(a: seq<real>)
    requires Falling(a) && a != []
    ensures Falling(a[1..]) && forall x :: x in a ==> x <= a[0]
  {
  }

  lemma WithoutHead(a: seq<real>)
    requires a != []
    ensures multiset(a[1..]) == multiset(a) - multiset{a[0]} && a == [a[0]] + a[1..]
  {
    assert a == [a[0]] + a[1..];
  }

  /** A descending list is determined by what it holds. */
  lemma {:induction false} FallingUnique(a: seq<real>, b: seq<real>)
    requires Falling(a) && Falling(b) && multiset(a) == multiset(b)
    ensures a == b
  {
    hide Falling;
    assert |a| == |multiset(a)| == |multiset(b)| == |b|;
    if a != [] {
      FallingHead(a);
      FallingHead(b);
      assert a[0] in multiset(a) && b[0] in multiset(b);
      assert a[0] in b && b[0] in a;
      assert a[0] <= b[0] <= a[0];
      WithoutHead(a);
      WithoutHead(b);
      FallingUnique(a[1..], b[1..]);
    }
  }

  // ---------------------------------------------------------------- the cut

  /** The first place from `i` on where the running sum passes `p`, else the last place. */
  function Cut(q: seq<real>, p: real, i: nat): (r: nat)
    requires i < |q|
    ensures i <= r < |q|
    decreases |q| - i
  {
    if Sum(q[..i + 1]) > p || i == |q| - 1 then i else Cut(q, p, i + 1)
  }

  /** Where the nucleus of a list ends. */
  function End(q: seq<real>, p: real): (r: nat)
    requires q != []
    ensures r < |q|
  {
    Cut(q, p, 0)
  }

  /** The cut is the place whose slice of the running sum holds `p`. */
  lemma {:induction false} CutSlice(q: seq<real>, p: real, i: nat)
    requires i < |q| && Sum(q) > p && Sum(q[..i]) <= p
    ensures var e := Cut(q, p, i); Sum(q[..e]) <= p < Sum(q[..e + 1])
    decreases |q| - i
  {
    if i == |q| - 1 {
      assert q[..i + 1] == q;
    } else if Sum(q[..i + 1]) <= p {
      CutSlice(q, p, i + 1);
    }
  }

  /** Only the running sums up to the cut matter. */
  lemma {:induction false} CutPrefix(f: seq<real>, q: seq<real>, p: real, i: nat)
    requires f <= q && i < |f| && Sum(f[..i]) <= p < Sum(f)
    ensures Cut(f, p, i) == Cut(q, p, i)
    decreases |f| - i
  {
    assert f[..i + 1] == q[..i + 1];
    if i == |f| - 1 {
      assert f[..i + 1] == f;
    } else if Sum(f[..i + 1]) <= p {
      CutPrefix(f, q, p, i + 1);
    }
  }

  /** 1 - p spread over the at most n - 1 entries from the cut on. */
  lemma ShareOfRest(first: real, left: real, n: nat, p: real)
    requires n >= 2 && 1.0 <= left <= (n - 1) as real && first >= 0.0 && 1.0 - p <= Times(left, first)
    ensures first >= (1.0 - p) / (n - 1) as real
  {
    var m := (n - 1) as real;
    assert left * first <= m * first;
    assert first == (m * first) / m;
  }

  function Cutoff(p: real, n: nat): real
    requires n >= 2
  {
    (1.0 - p) / (n - 1) as real
  }

  /** The cutoff shares out what the nucleus leaves among all tokens but one. */
  lemma CutoffShares(p: real, n: nat)
    requires n >= 2
    ensures Cutoff(p, n) * (n - 1) as real == 1.0 - p
  {
  }

  ghost predicate Distribution(x: seq<real>) {
    Sum(x) == 1.0 && forall i :: 0 <= i < |x| ==> x[i] >= 0.0
  }

  lemma TailBound(q: seq<real>, e: nat)
    requires e < |q| && Falling(q)
    ensures Sum(q) - Sum(q[..e]) <= Times((|q| - e) as real, q[e])
  {
    hide Sum, Times;
    assert q == q[..e] + q[e..];
    SumConcat(q[..e], q[e..]);
    SumBound(q[e..], q[e]);
  }

  /** A nucleus that goes past the first entry holds nothing below the cutoff. */
  lemma EndAboveCutoff(q: seq<real>, p: real)
    requires |q| >= 2 && Falling(q) && Distribution(q) && 0.0 < p < 1.0
    ensures var e := End(q, p);
      Sum(q[..e]) <= p < Sum(q[..e + 1]) && (e > 0 ==> q[e] >= Cutoff(p, |q|))
  {
    var e := End(q, p);
    assert q[..0] == [];
    CutSlice(q, p, 0);
    if e > 0 {
      TailBound(q, e);
      hide Sum, End, Times, Falling;
      ShareOfRest(q[e], (|q| - e) as real, |q|, p);
    }
  }

  // ------------------------------------------------------------ the theorem

  ghost predicate Ranking(q: seq<Entry>, x: seq<real>) {
    Descending(q) && multiset(q) == multiset(All(x))
  }

  lemma RankingIsDistribution(q: seq<Entry>, x: seq<real>)
    requires Ranking(q, x) && Distribution(x)
    ensures |q| == |x| && Falling(Probs(q)) && Distribution(Probs(q))
  {
    assert |multiset(q)| == |multiset(All(x))|;
    ProbsPermuted(q, All(x));
    assert Probs(All(x)) == x;
    SumPermuted(Probs(q), x);
    forall i | 0 <= i < |q|
      ensures Probs(q)[i] >= 0.0
    {
      assert Probs(q)[i] in multiset(Probs(q));
      assert Probs(q)[i] in x;
    }
  }

  /** The sorted survivors of the prefilter. */
  function Candidates(x: seq<real>, p: real): (r: seq<Entry>)
    requires |x| >= 2
  {
    SortDesc(Keep(All(x), Cutoff(p, |x|)))
  }

  lemma DescendingProbs(a: seq<Entry>, b: seq<Entry>)
    requires Descending(a) && Descending(b) && multiset(a) == multiset(b)
    ensures Probs(a) == Probs(b)
  {
    ProbsPermuted(a, b);
    FallingUnique(Probs(a), Probs(b));
  }

  lemma DescendingPrefix(q: seq<Entry>, k: nat)
    requires Descending(q) && k <= |q|
    ensures Descending(q[..k]) && Probs(q[..k]) == Probs(q)[..k]
  {
  }

  lemma CandidatesArePrefix(x: seq<real>, p: real, q: seq<Entry>)
    requires |x| >= 2 && Ranking(q, x)
    ensures var f := Candidates(x, p);
      |f| <= |q| && Probs(f) == Probs(q)[..|f|] && Above(q, Cutoff(p, |x|), |f|)
  {
    var c := Cutoff(p, |x|);
    var kept := Keep(q, c);
    KeepPermuted(All(x), q, c);
    SortDescSorts(Keep(All(x), c));
    KeepIsPrefix(q, c);
    DescendingPrefix(q, |kept|);
    var f := Candidates(x, p);
    assert f == SortDesc(Keep(All(x), c));
    hide Keep, SortDesc, Cutoff, Candidates, Descending, Above, Probs;
    DescendingProbs(f, kept);
    assert |f| == |Probs(f)| == |kept|;
  }

  /**
    The prefiltered nucleus is the full one: whatever way all tokens are ranked,
    the candidates reach past p, stop at the same place, and hold the same
    probabilities up to it; with no candidate the nucleus is the top token alone.
   */
  lemma PrefilterKeepsNucleus(x: seq<real>, p: real, q: seq<Entry>)
    requires |x| >= 2 && Distribution(x) && 0.0 < p < 1.0 && Ranking(q, x)
    ensures var f, all := Candidates(x, p), Probs(q);
      && |all| == |x| && Sum(all[..End(all, p) + 1]) > p
      && (f == [] ==> End(all, p) == 0)
      && (f != [] ==> End(Probs(f), p) == End(all, p) && Probs(f)[..End(all, p) + 1] == all[..End(all, p) + 1])
  {
    var f, all := Candidates(x, p), Probs(q);
    RankingIsDistribution(q, x);
    CandidatesArePrefix(x, p, q);
    EndAboveCutoff(all, p);
    hide Candidates, Cutoff, Ranking;
    var e := End(all, p);
    if f != [] {
      assert e < |f|;
      var pf := Probs(f);
      assert pf[..e + 1] == all[..e + 1];
      assert pf[..0] == [] == all[..0];
      SumMonotone(pf, e + 1);
      CutPrefix(pf, all, p, 0);
    }
  }

  lemma SumMonotone(s: seq<real>, n: nat)
    requires n <= |s| && forall i :: 0 <= i < |s| ==> s[i] >= 0.0
    ensures Sum(s[..n]) <= Sum(s)
  {
    if n < |s| {
      SumMonotone(s[..|s| - 1], n);
      assert s[..|s| - 1][..n] == s[..n];
    } else {
      assert s[..n] == s;
    }
  }

  // --------------------------------------------------------------- the draw

  /** The first of the largest entries. */
  function ArgMax(x: seq<real>, n: nat): (r: nat)
    requires 1 <= n <= |x|
    ensures r < n
    ensures forall i :: 0 <= i < n ==> x[i] <= x[r] && (i < r ==> x[i] < x[r])
  {
    if n == 1 then 0
    else
      var best := ArgMax(x, n - 1);
      if x[n - 1] > x[best] then n - 1 else best
  }

  /** The position a draw `u` of [0, 1) falls on in the nucleus of a ranked list. */
  function Drawn(q: seq<real>, p: real, u: real): (r: nat)
    requires q != []
    ensures r <= End(q, p)
  {
    var nucleus := q[..End(q, p) + 1];
    Cut(nucleus, Times(u, Sum(nucleus)), 0)
  }

  /** The nucleus branch: one token left alone when nothing passes the cutoff. */
  function NucleusToken(x: seq<real>, p: real, u: real): int
    requires x != []
  {
    if |x| == 1 || Candidates(x, p) == [] then ArgMax(x, |x|)
    else
      var f := Candidates(x, p);
      f[Drawn(Probs(f), p, u)].idx
  }

  lemma CandidateIsToken(x: seq<real>, p: real, i: nat)
    requires |x| >= 2 && i < |Candidates(x, p)|
    ensures var e := Candidates(x, p)[i]; 0 <= e.idx < |x| && x[e.idx] == e.prob
  {
    var f, kept := Candidates(x, p), Keep(All(x), Cutoff(p, |x|));
    SortDescSorts(kept);
    hide SortDesc, Cutoff, Keep;
    assert f[i] in multiset(f);
    assert multiset(kept)[f[i]] > 0;
    KeepCounts(All(x), Cutoff(p, |x|), f[i]);
    assert f[i] in multiset(All(x));
    assert f[i] in All(x);
  }

  lemma TopOfRanking(x: seq<real>, q: seq<Entry>)
    requires x != [] && Ranking(q, x)
    ensures |q| == |x| && q[0].prob == x[ArgMax(x, |x|)]
  {
    assert |multiset(q)| == |multiset(All(x))|;
    var m := ArgMax(x, |x|);
    assert All(x)[m] in multiset(All(x));
    assert All(x)[m] in q;
    assert q[0] in multiset(q);
    assert q[0] in All(x);
  }

  lemma DrawBelow(u: real, total: real)
    requires 0.0 <= u < 1.0 && total > 0.0
    ensures 0.0 <= Times(u, total) < total
  {
  }

  /**
    The sampled token has the probability that full sorting would have drawn:
    it is a token, it lies in the nucleus, and its slice of the nucleus holds
    the draw.
   */
  lemma PrefilterDrawsTheSame(x: seq<real>, p: real, u: real, q: seq<Entry>)
    requires x != [] && Distribution(x) && 0.0 < p < 1.0 && 0.0 <= u < 1.0 && Ranking(q, x)
    ensures var t := NucleusToken(x, p, u);
      0 <= t < |x| == |q| && x[t] == q[Drawn(Probs(q), p, u)].prob
  {
    var all := Probs(q);
    TopOfRanking(x, q);
    if |x| == 1 {
      assert Drawn(all, p, u) == 0;
    } else {
      PrefilterKeepsNucleus(x, p, q);
      var f := Candidates(x, p);
      hide Candidates, Ranking, Times, Sum, End, Distribution;
      if f == [] {
        assert |all[..1]| == 1;
      } else {
        var d := Drawn(Probs(f), p, u);
        CandidateIsToken(x, p, d);
        assert d == Drawn(all, p, u);
        assert Probs(f)[d] == Probs(f)[..End(all, p) + 1][d] == all[..End(all, p) + 1][d];
      }
    }
  }

  /** The slice a draw falls on, in the nucleus of any ranking. */
  lemma DrawnSlice(q: seq<real>, p: real, u: real)
    requires q != [] && Sum(q[..End(q, p) + 1]) > 0.0 && 0.0 <= u < 1.0
    ensures var d, total := Drawn(q, p, u), Sum(q[..End(q, p) + 1]);
      d <= End(q, p) && Sum(q[..d]) <= Times(u, total) < Sum(q[..d + 1])
  {
    var nucleus := q[..End(q, p) + 1];
    var total := Sum(nucleus);
    assert nucleus[..0] == [];
    DrawBelow(u, total);
    hide Times;
    CutSlice(nucleus, Times(u, total), 0);
    var d := Drawn(q, p, u);
    assert nucleus[..d] == q[..d] && nucleus[..d + 1] == q[..d + 1];
  }

  /** With all probabilities different it is the very same token. */
  lemma DistinctDrawsTheSame(x: seq<real>, p: real, u: real, q: seq<Entry>)
    requires x != [] && Distribution(x) && 0.0 < p < 1.0 && 0.0 <= u < 1.0 && Ranking(q, x)
    requires forall i, j :: 0 <= i < j < |x| ==> x[i] != x[j]
    ensures |q| == |x| && NucleusToken(x, p, u) == q[Drawn(Probs(q), p, u)].idx
  {
    PrefilterDrawsTheSame(x, p, u, q);
    var e := q[Drawn(Probs(q), p, u)];
    assert e in multiset(q);
    assert e in All(x);
    hide NucleusToken, Drawn;
  }
}
