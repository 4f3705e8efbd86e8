/**
  What attention of core/src/tq_forward.c computes: which keys and values a
  query head sees, and, over exact reals, the textbook sum for every value.
 */
module GroupedAttention {
  import opened CacheAccuracy
  import opened Forward
  import opened Intervals
  import opened KvCache
  import opened Products

  // ------------------------------------------------------- one KV head per group

  /** KV head `g` serves the `m` query heads from g * m on, and no other. */
  lemma KvHeadServes(sh: Shape, h: nat, g: nat)
    requires sh.Valid() && h < sh.nHeads && g < sh.nKvHeads
    ensures var m := sh.nHeads / sh.nKvHeads;
      m > 0 && (sh.KvHead(h) == g <==> g * m <= h < (g + 1) * m)
  {
    KvHeadInRange(sh, h);
    var m := sh.nHeads / sh.nKvHeads;
    hide *;
    QuotientIs(h, m, g);
  }

  lemma QuotientIs(a: nat, b: nat, q: nat)
    requires b > 0
    ensures a / b == q <==> q * b <= a < (q + 1) * b
  {
    assert a == a / b * b + a % b;
    if a / b < q {
      MulMono(b, a / b + 1, q);
    } else if a / b > q {
      MulMono(b, q + 1, a / b);
    }
  }

  /** The KV head of query head `h`, in proportion. */
  function GroupOf(sh: Shape, h: nat): nat
    requires 0 < sh.nHeads
  {
    h * sh.nKvHeads / sh.nHeads
  }

  lemma GroupIsKvHead(sh: Shape, h: nat)
    requires sh.Valid() && h < sh.nHeads
    ensures sh.KvHead(h) == GroupOf(sh, h) < sh.nKvHeads
  {
    KvHeadInRange(sh, h);
    var m, n := sh.nHeads / sh.nKvHeads, sh.nKvHeads;
    assert sh.nHeads == m * n;
    var g := h / m;
    assert h == g * m + h % m;
    assert h * n == g * (m * n) + h % m * n by {
      assert (g * m + h % m) * n == g * m * n + h % m * n;
      assert g * m * n == g * (m * n);
    }
    MulMono(n, h % m + 1, m);
    assert (h % m + 1) * n == h % m * n + n;
    QuotientOf(h * n, m * n, g, h % m * n);
  }

  lemma QuotientOf(a: nat, b: nat, q: nat, r: nat)
    requires a == q * b + r && r < b
    ensures a / b == q
  {
    QuotientIs(a, b, q);
  }

  lemma HeadOfLonger<T>(a: seq<T>, b: seq<T>, h: nat, size: nat)
    requires (h + 1) * size <= |a|
    ensures (h + 1) * size <= |a + b| && Head(a + b, h, size) == Head(a, h, size)
  {
    HeadSpan(h, size, |a|);
  }

  lemma LastHead<T>(a: seq<T>, b: seq<T>, h: nat, size: nat)
    requires |a| == h * size && |b| == size
    ensures (h + 1) * size == |a + b| && Head(a + b, h, size) == b
  {
    assert (h + 1) * size == h * size + size;
  }

  /** Head `h` of the attention output is its own query against the keys and values of its group. */
  lemma {:induction false} AttendHead<F(!new)>(net: Net<F>, l: nat, xs: seq<seq<F>>, t: nat, n: nat, h: nat)
    requires Sized(net) && t < |xs| && h < n <= net.sh.nHeads
    ensures var (size, g) := (net.sh.headSize, GroupOf(net.sh, h));
      && g < net.sh.nKvHeads && (h + 1) * size <= n * size && (h + 1) * size <= |net.query(l, t, xs[t])|
      && Head(Attend(net, l, xs, t, n), h, size)
         == HeadOut(net, Head(net.query(l, t, xs[t]), h, size), KeyCells(net, l, g, xs, t + 1), ValueCells(net, l, g, xs, t + 1))
  {
    hide *;
    var size := net.sh.headSize;
    ShapeValid(net);
    QuerySize(net, l, t, xs[t]);
    HeadInside(h, n, size);
    HeadInside(h, net.sh.nHeads, size);
    GroupIsKvHead(net.sh, h);
    AttendLast(net, l, xs, t, n);
    var rest := Attend(net, l, xs, t, n - 1);
    var last := LastOut(net, l, xs, t, n - 1);
    if h < n - 1 {
      AttendHead(net, l, xs, t, n - 1, h);
      HeadOfLonger(rest, last, h, size);
    } else {
      LastHead(rest, last, h, size);
      LastOutIs(net, l, xs, t, h);
    }
  }

  function LastOut<F(!new)>(net: Net<F>, l: nat, xs: seq<seq<F>>, t: nat, h: nat): (s: seq<F>)
    requires Sized(net) && t < |xs| && h < net.sh.nHeads
    ensures |s| == net.sh.headSize
  {
    HeadInside(h, net.sh.nHeads, net.sh.headSize);
    KvHeadInRange(net.sh, h);
    var g := net.sh.KvHead(h);
    HeadOut(net, Head(net.query(l, t, xs[t]), h, net.sh.headSize), KeyCells(net, l, g, xs, t + 1), ValueCells(net, l, g, xs, t + 1))
  }

  lemma LastOutIs<F(!new)>(net: Net<F>, l: nat, xs: seq<seq<F>>, t: nat, h: nat)
    requires Sized(net) && t < |xs| && h < net.sh.nHeads && (h + 1) * net.sh.headSize <= |net.query(l, t, xs[t])|
    requires 0 < net.sh.nHeads && 0 < net.sh.nKvHeads && 0 < net.sh.nHeads / net.sh.nKvHeads
    ensures var g := net.sh.KvHead(h);
      LastOut(net, l, xs, t, h)
      == HeadOut(net, Head(net.query(l, t, xs[t]), h, net.sh.headSize), KeyCells(net, l, g, xs, t + 1), ValueCells(net, l, g, xs, t + 1))
  {
  }

  lemma AttendLast<F(!new)>(net: Net<F>, l: nat, xs: seq<seq<F>>, t: nat, n: nat)
    requires Sized(net) && t < |xs| && 0 < n <= net.sh.nHeads
    ensures Attend(net, l, xs, t, n) == Attend(net, l, xs, t, n - 1) + LastOut(net, l, xs, t, n - 1)
  {
  }

  /** A model that differs in the keys and values of KV head `g` only. */
  ghost predicate DiffersAt<F(!new)>(a: Net<F>, b: Net<F>, l: nat, xs: seq<seq<F>>, g: nat) {
    && b == a.(key := b.key, value := b.value)
    && forall s, k :: 0 <= s < |xs| && 0 <= k < a.sh.nKvHeads && k != g ==>
         HeadCell(a, a.key(l, s, xs[s]), k) == HeadCell(a, b.key(l, s, xs[s]), k)
         && HeadCell(a, a.value(l, s, xs[s]), k) == HeadCell(a, b.value(l, s, xs[s]), k)
  }

  /** Changing one KV head changes the output of no query head outside its group. */
  lemma GroupsAreSeparate<F(!new)>(a: Net<F>, b: Net<F>, l: nat, xs: seq<seq<F>>, t: nat, g: nat, h: nat)
    requires Sized(a) && Sized(b) && t < |xs| && h < a.sh.nHeads && g < a.sh.nKvHeads && DiffersAt(a, b, l, xs, g)
    requires var m := a.sh.nHeads / a.sh.nKvHeads; !(g * m <= h < (g + 1) * m)
    ensures (h + 1) * a.sh.headSize <= a.sh.nHeads * a.sh.headSize
    ensures Head(Attend(a, l, xs, t, a.sh.nHeads), h, a.sh.headSize) == Head(Attend(b, l, xs, t, b.sh.nHeads), h, a.sh.headSize)
  {
    AttendHead(a, l, xs, t, a.sh.nHeads, h);
    AttendHead(b, l, xs, t, b.sh.nHeads, h);
    ShapeValid(a);
    KvHeadServes(a.sh, h, g);
    GroupIsKvHead(a.sh, h);
    var k := GroupOf(a.sh, h);
    SameCells(a, b, l, xs, t + 1, g, k);
    hide Attend, Sized, DiffersAt, Scores, WeightedSum, GroupOf, KeyCells, ValueCells;
    HeadOutSame(a, b, Head(a.query(l, t, xs[t]), h, a.sh.headSize), KeyCells(a, l, k, xs, t + 1), ValueCells(a, l, k, xs, t + 1));
  }

  lemma SameCells<F(!new)>(a: Net<F>, b: Net<F>, l: nat, xs: seq<seq<F>>, n: nat, g: nat, k: nat)
    requires DiffersAt(a, b, l, xs, g) && k < a.sh.nKvHeads && k != g && n <= |xs|
    ensures KeyCells(a, l, k, xs, n) == KeyCells(b, l, k, xs, n) && ValueCells(a, l, k, xs, n) == ValueCells(b, l, k, xs, n)
    ensures a.query == b.query && a.sh == b.sh && b == a.(key := b.key, value := b.value)
  {
  }

  lemma HeadOutSame<F(!new)>(a: Net<F>, b: Net<F>, q: seq<F>, kc: seq<Cell<F>>, vc: seq<Cell<F>>)
    requires Sized(a) && Sized(b) && |kc| == |vc| && b == a.(key := b.key, value := b.value)
    ensures HeadOut(a, q, kc, vc) == HeadOut(b, q, kc, vc)
  {
    assert Scores(a, q, kc) == Scores(b, q, kc);
    WeightedSumSame(a, b, a.softmax(Scores(a, q, kc)), vc);
  }

  lemma {:induction false} WeightedSumSame<F(!new)>(a: Net<F>, b: Net<F>, p: seq<F>, vc: seq<Cell<F>>)
    requires |p| == |vc| && b == a.(key := b.key, value := b.value)
    ensures WeightedSum(a, p, vc) == WeightedSum(b, p, vc)
  {
    if p != [] {
      WeightedSumSame(a, b, p[..|p| - 1], vc[..|p| - 1]);
    } else {
      assert ZeroVector(a) == ZeroVector(b);
    }
  }

  // ------------------------------------------------------------- the textbook sum

  /** Every cell holds a vector of the head's size. */
  predicate Full(cs: seq<Cell<real>>, size: nat) {
    forall s :: 0 <= s < |cs| ==> |Stored(cs[s])| == size
  }

  /** Value `i` of every stored vector, in position order. */
  function Column(cs: seq<Cell<real>>, size: nat, i: nat): (c: seq<real>)
    requires Full(cs, size) && i < size
    ensures |c| == |cs|
  {
    seq(|cs|, s requires 0 <= s < |cs| => Stored(cs[s])[i])
  }

  lemma {:induction false} SumOfColumn(net: Net<real>, p: seq<real>, vc: seq<Cell<real>>, i: nat)
    requires net.ar == Exactly() && |p| == |vc| && Full(vc, net.sh.headSize) && i < net.sh.headSize
    ensures WeightedSum(net, p, vc)[i] == RealDot(p, Column(vc, net.sh.headSize, i))
  {
    var n := |p|;
    if n > 0 {
      var p', vc' := p[..n - 1], vc[..n - 1];
      SumOfColumn(net, p', vc', i);
      SumReads(WeightedSum(net, p', vc'), p[n - 1], vc[n - 1], i);
      assert Column(vc, net.sh.headSize, i)[..n - 1] == Column(vc', net.sh.headSize, i);
      hide Stored, AxpyCell, Times;
    }
  }

  /** The scaled products of a query with every stored key. */
  function TextbookScores(scale: real, q: seq<real>, kc: seq<Cell<real>>): (s: seq<real>)
    requires Full(kc, |q|)
    ensures |s| == |kc|
  {
    seq(|kc|, s requires 0 <= s < |kc| => Times(RealDot(q, Stored(kc[s])), scale))
  }

  lemma ScoresAreTextbook(net: Net<real>, q: seq<real>, kc: seq<Cell<real>>)
    requires net.ar == Exactly() && Full(kc, |q|)
    ensures Scores(net, q, kc) == TextbookScores(net.attScale, q, kc)
  {
    forall s | 0 <= s < |kc|
      ensures Scores(net, q, kc)[s] == TextbookScores(net.attScale, q, kc)[s]
    {
      ScoreReads(q, kc[s]);
      hide RealDot, Stored, Times, DotCell;
    }
  }

  lemma CellsFull(net: Net<real>, l: nat, g: nat, xs: seq<seq<real>>, n: nat)
    requires Sized(net) && net.ar == Exactly() && g < net.sh.nKvHeads && n <= |xs|
    ensures Full(KeyCells(net, l, g, xs, n), net.sh.headSize) && Full(ValueCells(net, l, g, xs, n), net.sh.headSize)
  {
    HeadInside(g, net.sh.nKvHeads, net.sh.headSize);
    forall s | 0 <= s < n
      ensures |Stored(KeyCells(net, l, g, xs, n)[s])| == |Stored(ValueCells(net, l, g, xs, n)[s])| == net.sh.headSize
    {
      QuerySize(net, l, s, xs[s]);
    }
  }

  /**
    Value `i` of head `h` after attention at position `t`: the softmax of the
    scaled scores of positions 0..t, times value `i` of each of their stored
    values, keys and values those of KV head h * nKvHeads / nHeads.
   */
  lemma AttentionIsTextbook(net: Net<real>, l: nat, xs: seq<seq<real>>, t: nat, h: nat, i: nat)
    requires Sized(net) && net.ar == Exactly() && t < |xs| && h < net.sh.nHeads && i < net.sh.headSize
    ensures var (size, g) := (net.sh.headSize, GroupOf(net.sh, h));
      && (h + 1) * size <= net.sh.nHeads * size && (h + 1) * size <= |net.query(l, t, xs[t])|
      && Full(KeyCells(net, l, g, xs, t + 1), size) && Full(ValueCells(net, l, g, xs, t + 1), size)
      && var p := net.softmax(TextbookScores(net.attScale, Head(net.query(l, t, xs[t]), h, size), KeyCells(net, l, g, xs, t + 1)));
         |p| == t + 1
         && Head(Attend(net, l, xs, t, net.sh.nHeads), h, size)[i] == RealDot(p, Column(ValueCells(net, l, g, xs, t + 1), size, i))
  {
    AttendHead(net, l, xs, t, net.sh.nHeads, h);
    var size, g := net.sh.headSize, GroupOf(net.sh, h);
    CellsFull(net, l, g, xs, t + 1);
    var q := Head(net.query(l, t, xs[t]), h, size);
    var kc, vc := KeyCells(net, l, g, xs, t + 1), ValueCells(net, l, g, xs, t + 1);
    hide Attend, Scores, WeightedSum, KeyCells, ValueCells, RealDot, Column, GroupOf, Full, TextbookScores, Head;
    ScoresAreTextbook(net, q, kc);
    SoftmaxSize(net, Scores(net, q, kc));
    SumOfColumn(net, net.softmax(Scores(net, q, kc)), vc, i);
  }

  // -------------------------------------------------------------- the whole model

  /** Head `g` of a key or value vector as the cache keeps it. */
  function Remembered(net: Net<real>, v: seq<real>, g: nat): (s: seq<real>)
    requires g < net.sh.nKvHeads && |v| == net.sh.nKvHeads * net.sh.headSize
  {
    HeadInside(g, net.sh.nKvHeads, net.sh.headSize);
    HeadSpan(g, net.sh.headSize, |v|);
    Stored(Encode(net.ar, net.quantized, v[g * net.sh.headSize..g * net.sh.headSize + net.sh.headSize]))
  }

  lemma RememberedSize(net: Net<real>, v: seq<real>, g: nat)
    requires net.ar == Exactly() && g < net.sh.nKvHeads && |v| == net.sh.nKvHeads * net.sh.headSize
    ensures |Remembered(net, v, g)| == net.sh.headSize
    ensures HeadCell(net, v, g) == Encode(net.ar, net.quantized, Head(v, g, net.sh.headSize))
    ensures Stored(HeadCell(net, v, g)) == Remembered(net, v, g)
  {
    HeadInside(g, net.sh.nKvHeads, net.sh.headSize);
    HeadSpan(g, net.sh.headSize, |v|);
  }

  /** The inputs of a layer at positions 0..t, and the head and value asked for. */
  ghost predicate Askable(net: Net<real>, xs: seq<seq<real>>, t: nat, h: nat, i: nat) {
    Sized(net) && net.ar == Exactly() && t < |xs| && h < net.sh.nHeads && i < net.sh.headSize
  }

  /** What query head `h` makes of position `s`, scaled. */
  ghost function ScoreOf(net: Net<real>, l: nat, xs: seq<seq<real>>, t: nat, h: nat, s: nat): real
    requires Askable(net, xs, t, h, 0) && s <= t
  {
    var size, q, k := net.sh.headSize, net.query(l, t, xs[t]), net.key(l, s, xs[s]);
    QuerySize(net, l, t, xs[t]);
    QuerySize(net, l, s, xs[s]);
    HeadInside(h, net.sh.nHeads, size);
    HeadSpan(h, size, |q|);
    GroupIsKvHead(net.sh, h);
    RememberedSize(net, k, GroupOf(net.sh, h));
    Times(RealDot(q[h * size..h * size + size], Remembered(net, k, GroupOf(net.sh, h))), net.attScale)
  }

  ghost function ValueOf(net: Net<real>, l: nat, xs: seq<seq<real>>, t: nat, h: nat, i: nat, s: nat): real
    requires Askable(net, xs, t, h, i) && s <= t
  {
    QuerySize(net, l, s, xs[s]);
    GroupIsKvHead(net.sh, h);
    RememberedSize(net, net.value(l, s, xs[s]), GroupOf(net.sh, h));
    Remembered(net, net.value(l, s, xs[s]), GroupOf(net.sh, h))[i]
  }

  /** Attention, value by value. */
  ghost function AttentionAt(net: Net<real>, l: nat, xs: seq<seq<real>>, t: nat, h: nat, i: nat): real
    requires Askable(net, xs, t, h, i)
  {
    var scores := seq(t + 1, s requires 0 <= s < t + 1 => ScoreOf(net, l, xs, t, h, s));
    SoftmaxSize(net, scores);
    RealDot(net.softmax(scores), seq(t + 1, s requires 0 <= s < t + 1 => ValueOf(net, l, xs, t, h, i, s)))
  }

  lemma CellsRemembered(net: Net<real>, l: nat, g: nat, xs: seq<seq<real>>, n: nat, s: nat)
    requires Sized(net) && net.ar == Exactly() && g < net.sh.nKvHeads && s < n <= |xs|
    ensures |net.key(l, s, xs[s])| == |net.value(l, s, xs[s])| == net.sh.nKvHeads * net.sh.headSize
    ensures Stored(KeyCells(net, l, g, xs, n)[s]) == Remembered(net, net.key(l, s, xs[s]), g)
    ensures Stored(ValueCells(net, l, g, xs, n)[s]) == Remembered(net, net.value(l, s, xs[s]), g)
  {
    QuerySize(net, l, s, xs[s]);
    hide HeadCell, Remembered, Stored, Sized;
    RememberedSize(net, net.key(l, s, xs[s]), g);
    RememberedSize(net, net.value(l, s, xs[s]), g);
  }

  lemma ScoreOfIs(net: Net<real>, l: nat, xs: seq<seq<real>>, t: nat, h: nat, s: nat)
    requires Askable(net, xs, t, h, 0) && s <= t
    ensures var (size, g) := (net.sh.headSize, GroupOf(net.sh, h));
      && g < net.sh.nKvHeads && (h + 1) * size <= |net.query(l, t, xs[t])|
      && Full(KeyCells(net, l, g, xs, t + 1), size)
      && ScoreOf(net, l, xs, t, h, s)
         == TextbookScores(net.attScale, Head(net.query(l, t, xs[t]), h, size), KeyCells(net, l, g, xs, t + 1))[s]
  {
    var size, g := net.sh.headSize, GroupOf(net.sh, h);
    GroupIsKvHead(net.sh, h);
    QuerySize(net, l, t, xs[t]);
    HeadInside(h, net.sh.nHeads, size);
    HeadSpan(h, size, |net.query(l, t, xs[t])|);
    CellsFull(net, l, g, xs, t + 1);
    CellsRemembered(net, l, g, xs, t + 1, s);
    hide Sized, Stored, RealDot, Remembered, KeyCells, GroupOf, Times;
  }

  lemma ValueOfIs(net: Net<real>, l: nat, xs: seq<seq<real>>, t: nat, h: nat, i: nat, s: nat)
    requires Askable(net, xs, t, h, i) && s <= t
    ensures var (size, g) := (net.sh.headSize, GroupOf(net.sh, h));
      && g < net.sh.nKvHeads && Full(ValueCells(net, l, g, xs, t + 1), size)
      && ValueOf(net, l, xs, t, h, i, s) == Column(ValueCells(net, l, g, xs, t + 1), size, i)[s]
  {
    var g := GroupOf(net.sh, h);
    GroupIsKvHead(net.sh, h);
    CellsFull(net, l, g, xs, t + 1);
    CellsRemembered(net, l, g, xs, t + 1, s);
    hide Sized, Stored, Remembered, ValueCells, GroupOf;
  }

  lemma AttentionAtIs(net: Net<real>, l: nat, xs: seq<seq<real>>, t: nat, h: nat, i: nat, scores: seq<real>, vals: seq<real>)
    requires Askable(net, xs, t, h, i) && |scores| == |vals| == t + 1
    requires forall s :: 0 <= s <= t ==> scores[s] == ScoreOf(net, l, xs, t, h, s) && vals[s] == ValueOf(net, l, xs, t, h, i, s)
    ensures |net.softmax(scores)| == t + 1 && AttentionAt(net, l, xs, t, h, i) == RealDot(net.softmax(scores), vals)
  {
    SoftmaxSize(net, scores);
    hide ScoreOf, ValueOf, RealDot, Sized;
    assert scores == seq(t + 1, s requires 0 <= s < t + 1 => ScoreOf(net, l, xs, t, h, s));
    assert vals == seq(t + 1, s requires 0 <= s < t + 1 => ValueOf(net, l, xs, t, h, i, s));
  }

  lemma AttentionValue(net: Net<real>, l: nat, xs: seq<seq<real>>, t: nat, h: nat, i: nat)
    requires Askable(net, xs, t, h, i)
    ensures (h + 1) * net.sh.headSize <= net.sh.nHeads * net.sh.headSize
    ensures Head(Attend(net, l, xs, t, net.sh.nHeads), h, net.sh.headSize)[i] == AttentionAt(net, l, xs, t, h, i)
  {
    hide Attend, Sized, Stored, RealDot, KeyCells, ValueCells, GroupOf, Full, TextbookScores, Column, ScoreOf, ValueOf, Head, AttentionAt;
    AttentionIsTextbook(net, l, xs, t, h, i);
    var size, g := net.sh.headSize, GroupOf(net.sh, h);
    ScoreOfIs(net, l, xs, t, h, 0);
    var scores := TextbookScores(net.attScale, Head(net.query(l, t, xs[t]), h, size), KeyCells(net, l, g, xs, t + 1));
    var vals := Column(ValueCells(net, l, g, xs, t + 1), size, i);
    forall s | 0 <= s <= t
      ensures scores[s] == ScoreOf(net, l, xs, t, h, s) && vals[s] == ValueOf(net, l, xs, t, h, i, s)
    {
      ScoreOfIs(net, l, xs, t, h, s);
      ValueOfIs(net, l, xs, t, h, i, s);
    }
    AttentionAtIs(net, l, xs, t, h, i, scores, vals);
  }

  /** The input of every layer at every position, recomputed from the definition. */
  ghost function Hidden(net: Net<real>, toks: seq<nat>, l: nat): (xs: seq<seq<real>>)
    requires Sized(net) && net.ar == Exactly()
    ensures |xs| == |toks|
  {
    if l == 0 then seq(|toks|, t requires 0 <= t < |toks| => net.embed(toks[t]))
    else
      var xs := Hidden(net, toks, l - 1);
      seq(|toks|, t requires 0 <= t < |toks| => net.mix(l - 1, xs[t], Attended(net, l - 1, xs, t)))
  }

  /** All heads side by side. */
  ghost function Attended(net: Net<real>, l: nat, xs: seq<seq<real>>, t: nat): (a: seq<real>)
    requires Sized(net) && net.ar == Exactly() && t < |xs|
  {
    seq(net.sh.nHeads * net.sh.headSize, j requires 0 <= j < net.sh.nHeads * net.sh.headSize =>
      PlaceInHead(j, net.sh.nHeads, net.sh.headSize);
      AttentionAt(net, l, xs, t, j / net.sh.headSize, j % net.sh.headSize))
  }

  lemma PlaceInHead(j: nat, heads: nat, size: nat)
    requires j < heads * size
    ensures size > 0 && 0 <= j / size < heads && j % size < size && j == j / size * size + j % size
  {
    assert size > 0;
    assert j == j / size * size + j % size;
    if j / size >= heads {
      MulMono(size, heads, j / size);
      assert false;
    }
  }

  lemma HeadAt(v: seq<real>, h: nat, size: nat, i: nat)
    requires (h + 1) * size <= |v| && i < size
    ensures h * size + i < |v| && Head(v, h, size)[i] == v[h * size + i]
  {
    HeadSpan(h, size, |v|);
  }

  lemma AttendIsAttended(net: Net<real>, l: nat, xs: seq<seq<real>>, t: nat)
    requires Sized(net) && net.ar == Exactly() && t < |xs|
    ensures Attend(net, l, xs, t, net.sh.nHeads) == Attended(net, l, xs, t)
  {
    var a, size := Attend(net, l, xs, t, net.sh.nHeads), net.sh.headSize;
    hide Attend, AttentionAt, Sized, Head;
    forall j | 0 <= j < |a|
      ensures a[j] == Attended(net, l, xs, t)[j]
    {
      PlaceInHead(j, net.sh.nHeads, size);
      AttentionValue(net, l, xs, t, j / size, j % size);
      HeadAt(a, j / size, size, j % size);
    }
  }

  lemma {:induction false} InputsAreHidden(net: Net<real>, toks: seq<nat>, l: nat)
    requires Sized(net) && net.ar == Exactly()
    ensures Inputs(net, toks, l) == Hidden(net, toks, l)
  {
    hide Sized, Attend, Attended;
    if l > 0 {
      InputsAreHidden(net, toks, l - 1);
      var xs := Inputs(net, toks, l - 1);
      forall t | 0 <= t < |toks|
        ensures NextInputs(net, l - 1, xs)[t] == net.mix(l - 1, xs[t], Attended(net, l - 1, xs, t))
      {
        AttendIsAttended(net, l - 1, xs, t);
      }
      assert Inputs(net, toks, l) == Hidden(net, toks, l);
    }
  }

  /**
    The logits of a step are those of the definition: embed, in every layer attend
    value by value and mix, classify the last position.
   */
  lemma LogitsAreTextbook(net: Net<real>, toks: seq<nat>)
    requires Sized(net) && net.ar == Exactly() && toks != []
    ensures Logits(net, toks) == net.classify(Hidden(net, toks, net.sh.nLayers)[|toks| - 1])
  {
    hide Inputs, Hidden, Sized;
    InputsAreHidden(net, toks, net.sh.nLayers);
  }
}
