/**
  The KV-cached decode step of core/src/tq_forward.c against recomputation of
  every layer over the whole prefix.

  The dense kernels (norms, quantised products, RoPE at a position, SwiGLU,
  softmax) are functions from values to values; what is modelled in full is
  where the step reads and writes the cache, and what it finds there.
 */
module Forward {
  import opened Intervals
  import opened KvCache
  import opened Words

  datatype Net<!F> = Net(
    sh: Shape, vocab: nat, quantized: bool, ar: Arith<F>,
    embed: nat -> seq<F>,                     // token -> x
    query: (nat, nat, seq<F>) -> seq<F>,      // layer, position, x -> rotated q
    key: (nat, nat, seq<F>) -> seq<F>,        // layer, position, x -> rotated k
    value: (nat, nat, seq<F>) -> seq<F>,      // layer, position, x -> v
    attScale: F, softmax: seq<F> -> seq<F>,
    mix: (nat, seq<F>, seq<F>) -> seq<F>,     // layer, x, attention output -> next x
    classify: seq<F> -> seq<F>)               // x -> logits

  /** Where a step reads the model: the embedding row, a layer's weights before and after attention, the output head. */
  datatype Stage = Embedding | Before(l: nat) | After(l: nat) | Output

  /** What reading the model for a stage returns: OK, or an error of the store. */
  type Reads = Stage -> int32

  /** A mapped file is there. */
  function Mapped(s: Stage): int32 {
    OK
  }

  /** The first error from layer `l` on. */
  function LayersRc(io: Reads, l: nat, n: nat): int32
    requires l <= n
    decreases n - l
  {
    if l == n then io(Output)
    else if io(Before(l)) != OK then io(Before(l))
    else if io(After(l)) != OK then io(After(l))
    else LayersRc(io, l + 1, n)
  }

  /** The status of a step's reads. */
  function ReadsRc(io: Reads, n: nat): int32 {
    if io(Embedding) != OK then io(Embedding) else LayersRc(io, 0, n)
  }

  lemma {:induction false} MappedReads(l: nat, n: nat)
    requires l <= n
    ensures LayersRc(Mapped, l, n) == OK
    decreases n - l
  {
    if l < n {
      MappedReads(l + 1, n);
    }
  }

  lemma MappedRc(n: nat)
    ensures ReadsRc(Mapped, n) == OK
  {
    MappedReads(0, n);
  }

  /** The stages from layer `l` on, in the order of the step. */
  function StagesFrom(l: nat, n: nat): seq<Stage>
    requires l <= n
    decreases n - l
  {
    if l == n then [Output] else [Before(l), After(l)] + StagesFrom(l + 1, n)
  }

  /** All stages before `k` are fine, and `k` decides. */
  predicate DecidedAt(io: Reads, ss: seq<Stage>, k: nat, rc: int32) {
    && k <= |ss| && (forall i :: 0 <= i < k ==> io(ss[i]) == OK)
    && (if k == |ss| then rc == OK else rc == io(ss[k]) != OK)
  }

  lemma {:induction false} LayersDecided(io: Reads, l: nat, n: nat) returns (k: nat)
    requires l <= n
    ensures DecidedAt(io, StagesFrom(l, n), k, LayersRc(io, l, n))
    decreases n - l
  {
    var ss := StagesFrom(l, n);
    if l == n {
      k := if io(Output) == OK then 1 else 0;
    } else if io(Before(l)) != OK {
      k := 0;
    } else if io(After(l)) != OK {
      k := 1;
    } else {
      var m := LayersDecided(io, l + 1, n);
      var rest := StagesFrom(l + 1, n);
      assert forall i :: 2 <= i < |ss| ==> ss[i] == rest[i - 2];
      k := m + 2;
    }
  }

  /** The status of a step is that of the first stage whose read fails, or OK. */
  lemma FirstFailureDecides(io: Reads, n: nat) returns (k: nat)
    ensures DecidedAt(io, [Embedding] + StagesFrom(0, n), k, ReadsRc(io, n))
  {
    var rest := StagesFrom(0, n);
    var ss := [Embedding] + rest;
    if io(Embedding) != OK {
      k := 0;
    } else {
      var m := LayersDecided(io, 0, n);
      assert forall i :: 1 <= i < |ss| ==> ss[i] == rest[i - 1];
      k := m + 1;
    }
  }

  /** Every kernel returns vectors of the size the model's shape gives them. */
  ghost predicate Sized<F(!new)>(net: Net<F>) {
    && net.sh.Valid() && 0 < net.vocab
    && (forall l, t, x :: |net.query(l, t, x)| == net.sh.nHeads * net.sh.headSize)
    && (forall l, t, x :: |net.key(l, t, x)| == net.sh.KvDim())
    && (forall l, t, x :: |net.value(l, t, x)| == net.sh.KvDim())
    && (forall s :: |net.softmax(s)| == |s|)
    && (forall x :: |net.classify(x)| == net.vocab)
  }

  // ------------------------------------------------- recomputing everything

  function HeadCell<F>(net: Net<F>, v: seq<F>, g: nat): Cell<F> {
    if (g + 1) * net.sh.headSize <= |v| then Encode(net.ar, net.quantized, Head(v, g, net.sh.headSize))
    else Exact([])
  }

  /** The keys of KV head `g` at positions 0..n, given the layer's inputs. */
  function KeyCells<F>(net: Net<F>, l: nat, g: nat, xs: seq<seq<F>>, n: nat): (c: seq<Cell<F>>)
    requires n <= |xs|
    ensures |c| == n
  {
    seq(n, s requires 0 <= s < n => HeadCell(net, net.key(l, s, xs[s]), g))
  }

  function ValueCells<F>(net: Net<F>, l: nat, g: nat, xs: seq<seq<F>>, n: nat): (c: seq<Cell<F>>)
    requires n <= |xs|
    ensures |c| == n
  {
    seq(n, s requires 0 <= s < n => HeadCell(net, net.value(l, s, xs[s]), g))
  }

  function Scores<F>(net: Net<F>, q: seq<F>, kc: seq<Cell<F>>): (s: seq<F>)
    ensures |s| == |kc|
  {
    seq(|kc|, t requires 0 <= t < |kc| => net.ar.mul(DotCell(net.ar, q, kc[t]), net.attScale))
  }

  function ZeroVector<F>(net: Net<F>): (s: seq<F>)
    ensures |s| == net.sh.headSize
  {
    seq(net.sh.headSize, _ => net.ar.zero)
  }

  /** sum of p[t] * v[t], in position order. */
  function WeightedSum<F>(net: Net<F>, p: seq<F>, vc: seq<Cell<F>>): (s: seq<F>)
    requires |p| == |vc|
    ensures |s| == net.sh.headSize
  {
    if p == [] then ZeroVector(net)
    else AxpyCell(net.ar, WeightedSum(net, p[..|p| - 1], vc[..|p| - 1]), p[|p| - 1], vc[|p| - 1])
  }

  function HeadOut<F(!new)>(net: Net<F>, q: seq<F>, kc: seq<Cell<F>>, vc: seq<Cell<F>>): (s: seq<F>)
    requires Sized(net) && |kc| == |vc|
    ensures |s| == net.sh.headSize
  {
    WeightedSum(net, net.softmax(Scores(net, q, kc)), vc)
  }

  /** The outputs of query heads 0..h at position `t`, one after the other. */
  function Attend<F(!new)>(net: Net<F>, l: nat, xs: seq<seq<F>>, t: nat, h: nat): (s: seq<F>)
    requires Sized(net) && t < |xs| && h <= net.sh.nHeads
    ensures |s| == h * net.sh.headSize
  {
    if h == 0 then []
    else
      HeadInside(h - 1, net.sh.nHeads, net.sh.headSize);
      KvHeadInRange(net.sh, h - 1);
      var g := net.sh.KvHead(h - 1);
      assert h * net.sh.headSize == (h - 1) * net.sh.headSize + net.sh.headSize;
      Attend(net, l, xs, t, h - 1)
      + HeadOut(net, Head(net.query(l, t, xs[t]), h - 1, net.sh.headSize),
                KeyCells(net, l, g, xs, t + 1), ValueCells(net, l, g, xs, t + 1))
  }

  function LayerOut<F(!new)>(net: Net<F>, l: nat, xs: seq<seq<F>>, t: nat): seq<F>
    requires Sized(net) && t < |xs|
  {
    net.mix(l, xs[t], Attend(net, l, xs, t, net.sh.nHeads))
  }

  /** The inputs of layer `l` at every position of `toks`. */
  function Inputs<F(!new)>(net: Net<F>, toks: seq<nat>, l: nat): (xs: seq<seq<F>>)
    requires Sized(net)
    ensures |xs| == |toks|
  {
    if l == 0 then seq(|toks|, t requires 0 <= t < |toks| => net.embed(toks[t]))
    else
      NextInputs(net, l - 1, Inputs(net, toks, l - 1))
  }

  function NextInputs<F(!new)>(net: Net<F>, l: nat, xs: seq<seq<F>>): (ys: seq<seq<F>>)
    requires Sized(net)
    ensures |ys| == |xs|
  {
    seq(|xs|, t requires 0 <= t < |xs| => LayerOut(net, l, xs, t))
  }

  /** The logits after the last token of `toks`, recomputed from nothing. */
  function Logits<F(!new)>(net: Net<F>, toks: seq<nat>): (lg: seq<F>)
    requires Sized(net) && toks != []
    ensures |lg| == net.vocab
  {
    net.classify(Inputs(net, toks, net.sh.nLayers)[|toks| - 1])
  }

  lemma {:induction false} AttendCausal<F(!new)>(net: Net<F>, l: nat, xs: seq<seq<F>>, t: nat, h: nat, p: nat)
    requires Sized(net) && t < p <= |xs| && h <= net.sh.nHeads
    ensures Attend(net, l, xs[..p], t, h) == Attend(net, l, xs, t, h)
  {
    if h > 0 {
      AttendCausal(net, l, xs, t, h - 1, p);
      HeadInside(h - 1, net.sh.nHeads, net.sh.headSize);
      KvHeadInRange(net.sh, h - 1);
      var g := net.sh.KvHead(h - 1);
      assert KeyCells(net, l, g, xs[..p], t + 1) == KeyCells(net, l, g, xs, t + 1);
      assert ValueCells(net, l, g, xs[..p], t + 1) == ValueCells(net, l, g, xs, t + 1);
    }
  }

  lemma NextInputsCausal<F(!new)>(net: Net<F>, l: nat, xs: seq<seq<F>>, p: nat)
    requires Sized(net) && p <= |xs|
    ensures NextInputs(net, l, xs[..p]) == NextInputs(net, l, xs)[..p]
  {
    forall t | 0 <= t < p
      ensures LayerOut(net, l, xs[..p], t) == LayerOut(net, l, xs, t)
    {
      AttendCausal(net, l, xs, t, net.sh.nHeads, p);
    }
  }

  /** A later token changes nothing at an earlier position, in any layer. */
  lemma {:induction false} Causal<F(!new)>(net: Net<F>, toks: seq<nat>, p: nat, l: nat)
    requires Sized(net) && p <= |toks|
    ensures Inputs(net, toks[..p], l) == Inputs(net, toks, l)[..p]
  {
    hide Sized, NextInputs;
    if l > 0 {
      Causal(net, toks, p, l - 1);
      NextInputsCausal(net, l - 1, Inputs(net, toks, l - 1), p);
    }
  }

  // --------------------------------------------------- one incremental step

  lemma CellNumber(sh: Shape, l: nat, t: nat, g: nat)
    requires l < sh.nLayers && t < sh.maxSeq && g < sh.nKvHeads
    ensures sh.Row(l, t) < sh.Rows()
    ensures sh.CellNo(l, t, g) < sh.Rows() * sh.nKvHeads
  {
    DigitInjective(sh.maxSeq, sh.nLayers, l, t, l, t);
    DigitInjective(sh.nKvHeads, sh.Rows(), sh.Row(l, t), g, sh.Row(l, t), g);
  }

  /** A cache plane of the shape and kind the model needs. */
  ghost predicate Fitting<F>(net: Net<F>, p: Plane<F>) {
    && p.Valid() && p.ar == net.ar && p.quantized == net.quantized
    && p.rows == net.sh.Rows() && p.heads == net.sh.nKvHeads && p.size == net.sh.headSize
  }

  ghost predicate InRange<F>(net: Net<F>, l: nat, t: nat, g: nat) {
    l < net.sh.nLayers && t < net.sh.maxSeq && g < net.sh.nKvHeads
  }

  /** Cell (l, t, g) of a plane with cells `cs` is `c`. */
  ghost predicate KeptCell<F>(net: Net<F>, cs: seq<Cell<F>>, l: nat, t: nat, g: nat, c: Cell<F>) {
    InRange(net, l, t, g) && net.sh.CellNo(l, t, g) < |cs| && cs[net.sh.CellNo(l, t, g)] == c
  }

  /** The row (l, t) keeps every head of `vec`. */
  ghost predicate Kept<F>(net: Net<F>, cs: seq<Cell<F>>, l: nat, t: nat, vec: seq<F>) {
    forall g :: 0 <= g < net.sh.nKvHeads ==> KeptCell(net, cs, l, t, g, HeadCell(net, vec, g))
  }

  /** Key and value of layer `l` at position `t` for input `y`. */
  ghost predicate PairKept<F>(net: Net<F>, kc: seq<Cell<F>>, vc: seq<Cell<F>>, l: nat, t: nat, y: seq<F>) {
    Kept(net, kc, l, t, net.key(l, t, y)) && Kept(net, vc, l, t, net.value(l, t, y))
  }

  /** Layer `l` is cached at positions 0..n for inputs `xs`. */
  ghost predicate LayerCached<F>(net: Net<F>, kc: seq<Cell<F>>, vc: seq<Cell<F>>, l: nat, xs: seq<seq<F>>, n: nat)
    requires n <= |xs|
  {
    forall t :: 0 <= t < n ==> PairKept(net, kc, vc, l, t, xs[t])
  }

  /** The first `l` layers are cached for all of `toks`, the others for all but the last token. */
  ghost predicate CachedBelow<F(!new)>(net: Net<F>, kc: seq<Cell<F>>, vc: seq<Cell<F>>, toks: seq<nat>, l: nat)
    requires Sized(net) && toks != []
  {
    forall m :: 0 <= m < net.sh.nLayers ==>
      LayerCached(net, kc, vc, m, Inputs(net, toks, m), if m < l then |toks| else |toks| - 1)
  }

  /** Every layer is cached for the tokens `toks`; nothing is said of the rest of the cache. */
  ghost predicate Cached<F(!new)>(net: Net<F>, kc: seq<Cell<F>>, vc: seq<Cell<F>>, toks: seq<nat>)
    requires Sized(net)
  {
    forall l :: 0 <= l < net.sh.nLayers ==> LayerCached(net, kc, vc, l, Inputs(net, toks, l), |toks|)
  }

  /** Being cached for a prefix is what a step for the next token starts from. */
  lemma CachedPrefix<F(!new)>(net: Net<F>, kc: seq<Cell<F>>, vc: seq<Cell<F>>, toks: seq<nat>)
    requires Sized(net) && toks != [] && Cached(net, kc, vc, toks[..|toks| - 1])
    ensures CachedBelow(net, kc, vc, toks, 0)
  {
    hide Sized, PairKept, Inputs;
    var n := |toks| - 1;
    forall m | 0 <= m < net.sh.nLayers
      ensures LayerCached(net, kc, vc, m, Inputs(net, toks, m), n)
    {
      Causal(net, toks, n, m);
      assert LayerCached(net, kc, vc, m, Inputs(net, toks[..n], m), n);
      forall t | 0 <= t < n
        ensures PairKept(net, kc, vc, m, t, Inputs(net, toks, m)[t])
      {
        assert Inputs(net, toks, m)[t] == Inputs(net, toks[..n], m)[t];
      }
    }
  }

  /** However many layers are done, the tokens before are cached. */
  lemma CachedBefore<F(!new)>(net: Net<F>, kc: seq<Cell<F>>, vc: seq<Cell<F>>, toks: seq<nat>, l: nat)
    requires Sized(net) && toks != [] && CachedBelow(net, kc, vc, toks, l)
    ensures Cached(net, kc, vc, toks[..|toks| - 1])
  {
    hide Sized, PairKept, Inputs;
    var n := |toks| - 1;
    forall m | 0 <= m < net.sh.nLayers
      ensures LayerCached(net, kc, vc, m, Inputs(net, toks[..n], m), n)
    {
      Causal(net, toks, n, m);
      assert LayerCached(net, kc, vc, m, Inputs(net, toks, m), if m < l then |toks| else n);
      forall t | 0 <= t < n
        ensures PairKept(net, kc, vc, m, t, Inputs(net, toks[..n], m)[t])
      {
        assert Inputs(net, toks, m)[t] == Inputs(net, toks[..n], m)[t];
      }
    }
  }

  lemma CachedAll<F(!new)>(net: Net<F>, kc: seq<Cell<F>>, vc: seq<Cell<F>>, toks: seq<nat>)
    requires Sized(net) && toks != [] && CachedBelow(net, kc, vc, toks, net.sh.nLayers)
    ensures Cached(net, kc, vc, toks)
  {
    hide Sized, Inputs, LayerCached;
  }

  lemma CachedCells<F(!new)>(net: Net<F>, kc: seq<Cell<F>>, vc: seq<Cell<F>>, l: nat, xs: seq<seq<F>>, n: nat, g: nat)
    requires n <= |xs| && g < net.sh.nKvHeads && LayerCached(net, kc, vc, l, xs, n)
    ensures forall t :: 0 <= t < n ==> KeptCell(net, kc, l, t, g, KeyCells(net, l, g, xs, n)[t])
    ensures forall t :: 0 <= t < n ==> KeptCell(net, vc, l, t, g, ValueCells(net, l, g, xs, n)[t])
  {
    hide KeptCell;
    forall t | 0 <= t < n
      ensures KeptCell(net, kc, l, t, g, KeyCells(net, l, g, xs, n)[t])
      ensures KeptCell(net, vc, l, t, g, ValueCells(net, l, g, xs, n)[t])
    {
      assert PairKept(net, kc, vc, l, t, xs[t]);
    }
  }

  /** All cells but those of (l, pos) are the same. */
  ghost predicate SameElsewhere<F>(net: Net<F>, before: seq<Cell<F>>, after: seq<Cell<F>>, l: nat, pos: nat) {
    |before| == |after| &&
    forall m: nat, t: nat, g: nat :: InRange(net, m, t, g) && (m, t) != (l, pos) && net.sh.CellNo(m, t, g) < |after| ==>
      after[net.sh.CellNo(m, t, g)] == before[net.sh.CellNo(m, t, g)]
  }

  lemma KeptStays<F>(net: Net<F>, c0: seq<Cell<F>>, c1: seq<Cell<F>>, l: nat, pos: nat, m: nat, t: nat, vec: seq<F>)
    requires SameElsewhere(net, c0, c1, l, pos) && (m, t) != (l, pos) && Kept(net, c0, m, t, vec)
    ensures Kept(net, c1, m, t, vec)
  {
    forall g | 0 <= g < net.sh.nKvHeads
      ensures KeptCell(net, c1, m, t, g, HeadCell(net, vec, g))
    {
      assert KeptCell(net, c0, m, t, g, HeadCell(net, vec, g));
    }
  }

  /** Storing the pair of (l, pos) extends the cached part by that pair. */
  lemma CacheExtends<F(!new)>(net: Net<F>, k0: seq<Cell<F>>, v0: seq<Cell<F>>, k1: seq<Cell<F>>, v1: seq<Cell<F>>,
                              toks: seq<nat>, l: nat)
    requires Sized(net) && toks != [] && l < net.sh.nLayers && CachedBelow(net, k0, v0, toks, l)
    requires SameElsewhere(net, k0, k1, l, |toks| - 1) && SameElsewhere(net, v0, v1, l, |toks| - 1)
    requires PairKept(net, k1, v1, l, |toks| - 1, Inputs(net, toks, l)[|toks| - 1])
    ensures CachedBelow(net, k1, v1, toks, l + 1)
  {
    hide Sized, Inputs, SameElsewhere, Kept;
    var pos := |toks| - 1;
    forall m, t | 0 <= m < net.sh.nLayers && 0 <= t < (if m < l + 1 then |toks| else |toks| - 1)
      ensures PairKept(net, k1, v1, m, t, Inputs(net, toks, m)[t])
    {
      var y := Inputs(net, toks, m)[t];
      if (m, t) != (l, pos) {
        assert LayerCached(net, k0, v0, m, Inputs(net, toks, m), if m < l then |toks| else |toks| - 1);
        assert PairKept(net, k0, v0, m, t, y);
        KeptStays(net, k0, k1, l, pos, m, t, net.key(m, t, y));
        KeptStays(net, v0, v1, l, pos, m, t, net.value(m, t, y));
      }
    }
  }

  class Runtime<F(!new)> {
    const net: Net<F>
    const k: Plane<F>
    const v: Plane<F>
    const att: array<F>  // scores, nHeads rows of maxSeq
    const xb: array<F>   // attention output

    var x: seq<F>
    var q: seq<F>
    var kb: seq<F>
    var vb: seq<F>
    var logits: seq<F>

    ghost predicate Valid() {
      && Sized(net) && Fitting(net, k) && Fitting(net, v)
      && att.Length == net.sh.nHeads * net.sh.maxSeq && xb.Length == net.sh.nHeads * net.sh.headSize
      && k.Repr() !! v.Repr() && att != xb
      && att as object !in k.Repr() + v.Repr() && xb as object !in k.Repr() + v.Repr()
    }

    ghost function Footprint(): set<object> {
      {this as object, att as object, xb as object} + k.Repr() + v.Repr()
    }

    /** Wire a runtime over caller-owned memory, whatever it holds. */
    constructor (net: Net<F>, k: Plane<F>, v: Plane<F>, att: array<F>, xb: array<F>)
      requires Sized(net) && Fitting(net, k) && Fitting(net, v)
      requires att.Length == net.sh.nHeads * net.sh.maxSeq && xb.Length == net.sh.nHeads * net.sh.headSize
      requires k.Repr() !! v.Repr() && att != xb
      requires att as object !in k.Repr() + v.Repr() && xb as object !in k.Repr() + v.Repr()
      ensures Valid() && this.net == net && this.k == k && this.v == v && this.att == att && this.xb == xb
    {
      this.net, this.k, this.v, this.att, this.xb := net, k, v, att, xb;
      x, q, kb, vb, logits := [], [], [], [], [];
    }

    /** Raw scores of one query head against the cached keys of positions 0..pos. */
    method ScoreRow(l: nat, pos: nat, base: nat, g: nat, qh: seq<F>, ghost kc: seq<Cell<F>>)
      requires Fitting(net, k) && att as object !in k.Repr()
      requires base + pos < att.Length && |qh| == net.sh.headSize && |kc| == pos + 1
      requires forall t :: 0 <= t <= pos ==> KeptCell(net, k.Cells(), l, t, g, kc[t])
      modifies att
      ensures att[base..base + pos + 1] == Scores(net, qh, kc)
    {
      hide Scores, DotCell, Plane.At, Shape.CellNo;
      ghost var cs := k.Cells();
      ScoresAt(net, qh, kc);
      for t := 0 to pos + 1
        invariant k.Cells() == cs
        invariant forall i :: 0 <= i < t ==> att[base + i] == Scores(net, qh, kc)[i]
      {
        assert KeptCell(net, cs, l, t, g, kc[t]);
        var s := k.DotK(net.sh.CellNo(l, t, g), qh);
        att[base + t] := net.ar.mul(s, net.attScale);
      }
    }

    /** One cached value, weighted, added into its slice of xb. */
    method AddValue(l: nat, t: nat, g: nat, a: F, off: nat, ghost c: Cell<F>)
      requires Fitting(net, v) && xb as object !in v.Repr() && off + net.sh.headSize <= xb.Length
      requires KeptCell(net, v.Cells(), l, t, g, c)
      modifies xb
      ensures Fitting(net, v) && v.Cells() == old(v.Cells())
      ensures xb[..] == Splice(old(xb[..]), off, AxpyCell(net.ar, old(xb[off..off + net.sh.headSize]), a, c))
    {
      hide AxpyCell, Splice, Shape.CellNo, Plane.At;
      v.AccV(net.sh.CellNo(l, t, g), a, xb, off);
    }

    /** out = sum of att[t] * V[t] for one head, starting from zero, in place on its slice of xb. */
    method MixHead(l: nat, pos: nat, base: nat, off: nat, g: nat, ghost p: seq<F>, ghost vc: seq<Cell<F>>)
      requires Fitting(net, v) && xb as object !in v.Repr() && xb != att
      requires base + pos < att.Length && off + net.sh.headSize <= xb.Length
      requires |p| == |vc| == pos + 1 && att[base..base + pos + 1] == p
      requires forall t :: 0 <= t <= pos ==> KeptCell(net, v.Cells(), l, t, g, vc[t])
      modifies xb
      ensures xb[..] == Splice(old(xb[..]), off, WeightedSum(net, p, vc))
    {
      assert v.Valid();
      hide AxpyCell, ZeroVector, Splice, WeightedSum, KeptCell, Fitting, Plane.Valid;
      ghost var x0, cs := xb[..], v.Cells();
      Overwrite(xb, off, ZeroVector(net));
      SpliceTwice(x0, off, ZeroVector(net), ZeroVector(net));
      WeightedSumStart(net, p, vc);
      for t := 0 to pos + 1
        invariant v.Valid() && Fitting(net, v) && v.Cells() == cs
        invariant att[base..base + pos + 1] == p
        invariant xb[..] == Splice(x0, off, WeightedSum(net, p[..t], vc[..t]))
      {
        assert att[base + t] == p[t];
        MixedNext(net, x0, xb[..], off, p, vc, t);
        AddValue(l, t, g, att[base + t], off, vc[t]);
      }
      assert p[..pos + 1] == p && vc[..pos + 1] == vc;
    }

    /** One query head: scores, softmax in place on its score row, weighted sum into its slice of xb. */
    method AttendHead(l: nat, pos: nat, h: nat, g: nat, off: nat, qh: seq<F>, ghost kc: seq<Cell<F>>, ghost vc: seq<Cell<F>>)
      requires Valid() && pos < net.sh.maxSeq && h < net.sh.nHeads
      requires |qh| == net.sh.headSize && off + net.sh.headSize <= xb.Length && |kc| == |vc| == pos + 1
      requires forall t :: 0 <= t <= pos ==> KeptCell(net, k.Cells(), l, t, g, kc[t])
      requires forall t :: 0 <= t <= pos ==> KeptCell(net, v.Cells(), l, t, g, vc[t])
      modifies att, xb
      ensures xb[..] == Splice(old(xb[..]), off, HeadOut(net, qh, kc, vc))
    {
      DigitInjective(net.sh.maxSeq, net.sh.nHeads, h, pos, h, pos);
      assert HeadOut(net, qh, kc, vc) == WeightedSum(net, net.softmax(Scores(net, qh, kc)), vc);
      hide KeptCell, Scores, WeightedSum, HeadOut, Sized, Splice, Plane.Cells;
      var base := h * net.sh.maxSeq;
      ScoreRow(l, pos, base, g, qh, kc);
      SoftmaxSize(net, Scores(net, qh, kc));
      Overwrite(att, base, net.softmax(att[base..base + pos + 1]));
      MixHead(l, pos, base, off, g, net.softmax(Scores(net, qh, kc)), vc);
    }

    /** Query head `h`, given that the heads before it are done. */
    method AttendNext(l: nat, pos: nat, h: nat, ghost xs: seq<seq<F>>)
      requires Valid() && pos < net.sh.maxSeq && |xs| == pos + 1 && h < net.sh.nHeads
      requires LayerCached(net, k.Cells(), v.Cells(), l, xs, pos + 1) && q == net.query(l, pos, xs[pos])
      requires h * net.sh.headSize <= xb.Length && xb[..h * net.sh.headSize] == Attend(net, l, xs, pos, h)
      modifies att, xb
      ensures (h + 1) * net.sh.headSize <= xb.Length
      ensures xb[..(h + 1) * net.sh.headSize] == Attend(net, l, xs, pos, h + 1)
    {
      ShapeValid(net);
      hide HeadOut, Sized, KeptCell, LayerCached;
      ghost var size := net.sh.headSize;
      QuerySize(net, l, pos, xs[pos]);
      HeadInside(h, net.sh.nHeads, size);
      HeadSpan(h, size, xb.Length);
      KvHeadInRange(net.sh, h);
      var g, off := h / (net.sh.nHeads / net.sh.nKvHeads), h * net.sh.headSize;
      ghost var x0 := xb[..];
      CachedCells(net, k.Cells(), v.Cells(), l, xs, pos + 1, g);
      AttendHead(l, pos, h, g, off, Head(q, h, net.sh.headSize), KeyCells(net, l, g, xs, pos + 1), ValueCells(net, l, g, xs, pos + 1));
      assert xb[..off + size] == x0[..off] + xb[off..off + size];
    }

    /** All query heads of one layer. */
    method AttendHeads(l: nat, pos: nat, ghost xs: seq<seq<F>>)
      requires Valid() && pos < net.sh.maxSeq && |xs| == pos + 1
      requires LayerCached(net, k.Cells(), v.Cells(), l, xs, pos + 1) && q == net.query(l, pos, xs[pos])
      modifies att, xb
      ensures xb[..] == Attend(net, l, xs, pos, net.sh.nHeads)
    {
      hide Attend, LayerCached;
      AttendNone(net, l, xs, pos);
      ghost var kc, vc := k.Cells(), v.Cells();
      for h := 0 to net.sh.nHeads
        invariant k.Cells() == kc && v.Cells() == vc
        invariant h * net.sh.headSize <= xb.Length && xb[..h * net.sh.headSize] == Attend(net, l, xs, pos, h)
      {
        AttendNext(l, pos, h, xs);
      }
      assert xb[..net.sh.nHeads * net.sh.headSize] == xb[..];
    }

    /** Put a vector into its row: kept there, and every other row keeps what it kept. */
    method StoreVec(p: Plane<F>, l: nat, pos: nat, vec: seq<F>)
      requires Fitting(net, p) && l < net.sh.nLayers && pos < net.sh.maxSeq
      requires |vec| == net.sh.nKvHeads * net.sh.headSize
      modifies p.vals, p.q8, p.scale
      ensures Kept(net, p.Cells(), l, pos, vec)
      ensures SameElsewhere(net, old(p.Cells()), p.Cells(), l, pos)
    {
      hide Plane.At, Encode, Plane.HoldsHead, Shape.Row, Shape.Rows;
      CellNumber(net.sh, l, pos, 0);
      ghost var c0 := p.Cells();
      p.StoreRow(net.sh.Row(l, pos), vec);
      ghost var c1 := p.Cells();
      forall g | 0 <= g < net.sh.nKvHeads
        ensures KeptCell(net, c1, l, pos, g, HeadCell(net, vec, g))
      {
        HeldIsKept(p, l, pos, g, vec);
      }
      forall m: nat, t: nat, g: nat | InRange(net, m, t, g) && (m, t) != (l, pos) && net.sh.CellNo(m, t, g) < |c1|
        ensures c1[net.sh.CellNo(m, t, g)] == c0[net.sh.CellNo(m, t, g)]
      {
        OtherRow(net.sh, l, pos, m, t, g);
      }
    }

    lemma HeldIsKept(p: Plane<F>, l: nat, t: nat, g: nat, vec: seq<F>)
      requires Fitting(net, p) && InRange(net, l, t, g) && |vec| == net.sh.nKvHeads * net.sh.headSize
      requires p.HoldsHead(net.sh.Row(l, t), g, vec)
      ensures KeptCell(net, p.Cells(), l, t, g, HeadCell(net, vec, g))
    {
      HeadInside(g, net.sh.nKvHeads, net.sh.headSize);
      CellNumber(net.sh, l, t, g);
    }

    method StoreLayer(l: nat, pos: nat, ghost toks: seq<nat>)
      requires Valid() && l < net.sh.nLayers && pos < net.sh.maxSeq && |toks| == pos + 1
      requires CachedBelow(net, k.Cells(), v.Cells(), toks, l)
      requires kb == net.key(l, pos, Inputs(net, toks, l)[pos]) && vb == net.value(l, pos, Inputs(net, toks, l)[pos])
      modifies k.vals, k.q8, k.scale, v.vals, v.q8, v.scale
      ensures CachedBelow(net, k.Cells(), v.Cells(), toks, l + 1)
    {
      QuerySize(net, l, pos, Inputs(net, toks, l)[pos]);
      ghost var k0, v0 := k.Cells(), v.Cells();
      hide Inputs, Sized, CachedBelow, SameElsewhere, Kept;
      StoreVec(k, l, pos, kb);
      StoreVec(v, l, pos, vb);
      CacheExtends(net, k0, v0, k.Cells(), v.Cells(), toks, l);
    }

    /** One layer: project, store, attend over everything cached so far, mix; a failed read ends it. */
    method LayerStep(l: nat, pos: nat, io: Reads, ghost toks: seq<nat>) returns (rc: int32)
      requires Valid() && l < net.sh.nLayers && pos < net.sh.maxSeq && |toks| == pos + 1
      requires x == Inputs(net, toks, l)[pos] && CachedBelow(net, k.Cells(), v.Cells(), toks, l)
      modifies this, att, xb, k.vals, k.q8, k.scale, v.vals, v.q8, v.scale
      ensures rc == if io(Before(l)) != OK then io(Before(l)) else io(After(l))
      ensures rc == OK ==> x == Inputs(net, toks, l + 1)[pos] && CachedBelow(net, k.Cells(), v.Cells(), toks, l + 1)
      ensures rc != OK ==> Cached(net, k.Cells(), v.Cells(), toks[..pos])
    {
      hide Sized, NextInputs, LayerCached, Attend, Cached;
      ghost var xs := Inputs(net, toks, l);
      rc := io(Before(l));
      if rc != OK {
        CachedBefore(net, k.Cells(), v.Cells(), toks, l);
        return;
      }
      q, kb, vb := net.query(l, pos, x), net.key(l, pos, x), net.value(l, pos, x);
      StoreLayer(l, pos, toks);
      assert LayerCached(net, k.Cells(), v.Cells(), l, xs, pos + 1);
      hide CachedBelow;
      AttendHeads(l, pos, xs);
      LayerOutIs(net, l, xs, pos);
      rc := io(After(l));
      if rc != OK {
        CachedBefore(net, k.Cells(), v.Cells(), toks, l + 1);
        return;
      }
      x := net.mix(l, x, xb[..]);
    }

    /** Embedding, every layer in turn, classifier. */
    method RunLayers(token: nat, pos: nat, io: Reads, ghost toks: seq<nat>) returns (rc: int32)
      requires Valid() && pos < net.sh.maxSeq && |toks| == pos + 1 && toks[pos] == token
      requires CachedBelow(net, k.Cells(), v.Cells(), toks, 0)
      modifies this, att, xb, k.vals, k.q8, k.scale, v.vals, v.q8, v.scale
      ensures rc == ReadsRc(io, net.sh.nLayers)
      ensures rc == OK ==> logits == Logits(net, toks) && Cached(net, k.Cells(), v.Cells(), toks)
      ensures rc != OK ==> Cached(net, k.Cells(), v.Cells(), toks[..pos])
    {
      hide Sized, CachedBelow, Cached, Inputs, Logits;
      EmbedAndClassify(net, toks);
      rc := io(Embedding);
      if rc != OK {
        CachedBefore(net, k.Cells(), v.Cells(), toks, 0);
        return;
      }
      x := net.embed(token);
      for l := 0 to net.sh.nLayers
        invariant x == Inputs(net, toks, l)[pos] && CachedBelow(net, k.Cells(), v.Cells(), toks, l)
        invariant LayersRc(io, 0, net.sh.nLayers) == LayersRc(io, l, net.sh.nLayers)
      {
        rc := LayerStep(l, pos, io, toks);
        if rc != OK {
          return;
        }
      }
      rc := io(Output);
      if rc != OK {
        CachedBefore(net, k.Cells(), v.Cells(), toks, net.sh.nLayers);
        return;
      }
      CachedAll(net, k.Cells(), v.Cells(), toks);
      logits := net.classify(x);
    }

    /**
      One decode step. If the cache holds the tokens before this one and the
      model can be read, the logits are those of recomputing the whole prefix,
      and the cache then holds this token too. What else the cache and the
      scratch hold, from other messages or from nowhere, makes no difference.
      A failed read leaves the tokens before cached: the step can be tried again.
     */
    method Step(token: int, pos: int, io: Reads, ghost before: seq<nat>) returns (rc: int32)
      requires Valid()
      requires 0 <= pos < net.sh.maxSeq ==> |before| == pos && Cached(net, k.Cells(), v.Cells(), before)
      modifies this, att, xb, k.vals, k.q8, k.scale, v.vals, v.q8, v.scale
      ensures rc == (if 0 <= token < net.vocab && 0 <= pos < net.sh.maxSeq then ReadsRc(io, net.sh.nLayers) else ERR_RANGE)
      ensures rc == OK ==> logits == Logits(net, before + [token]) && Cached(net, k.Cells(), v.Cells(), before + [token])
      ensures 0 <= pos < net.sh.maxSeq && rc != OK ==> Cached(net, k.Cells(), v.Cells(), before)
      ensures !(0 <= token < net.vocab && 0 <= pos < net.sh.maxSeq) ==>
        unchanged(this, att, xb, k.vals, k.q8, k.scale, v.vals, v.q8, v.scale)
    {
      if token < 0 || token >= net.vocab {
        return ERR_RANGE;
      }
      if pos < 0 || pos >= net.sh.maxSeq {
        return ERR_RANGE;
      }
      ghost var toks: seq<nat> := before + [token];
      assert toks[..pos] == before;
      hide CachedBelow, Cached;
      CachedPrefix(net, k.Cells(), v.Cells(), toks);
      rc := RunLayers(token, pos, io, toks);
    }
  }

  lemma EmbedAndClassify<F(!new)>(net: Net<F>, toks: seq<nat>)
    requires Sized(net) && toks != []
    ensures Inputs(net, toks, 0)[|toks| - 1] == net.embed(toks[|toks| - 1])
    ensures Logits(net, toks) == net.classify(Inputs(net, toks, net.sh.nLayers)[|toks| - 1])
  {
    hide Sized, NextInputs;
  }

  lemma ScoresAt<F>(net: Net<F>, q: seq<F>, kc: seq<Cell<F>>)
    ensures forall t :: 0 <= t < |kc| ==> Scores(net, q, kc)[t] == net.ar.mul(DotCell(net.ar, q, kc[t]), net.attScale)
  {
  }

  lemma AttendNone<F(!new)>(net: Net<F>, l: nat, xs: seq<seq<F>>, t: nat)
    requires Sized(net) && t < |xs|
    ensures Attend(net, l, xs, t, 0) == []
  {
  }

  /** A cell of another (layer, position) lies outside the row being stored. */
  lemma OtherRow(sh: Shape, l: nat, t: nat, l': nat, t': nat, g: nat)
    requires l < sh.nLayers && t < sh.maxSeq && l' < sh.nLayers && t' < sh.maxSeq && g < sh.nKvHeads
    requires (l, t) != (l', t')
    ensures var c, b := sh.CellNo(l', t', g), sh.Row(l, t) * sh.nKvHeads;
      !(b <= c < b + sh.nKvHeads)
  {
    DigitInjective(sh.maxSeq, sh.nLayers, l, t, l', t');
    var r, r' := sh.Row(l, t), sh.Row(l', t');
    CellNumber(sh, l, t, g);
    CellNumber(sh, l', t', g);
    RowsDisjoint(sh.Rows(), sh.nKvHeads, r, r');
    RowsDisjoint(sh.Rows(), sh.nKvHeads, r', r);
  }

  lemma LayerOutIs<F(!new)>(net: Net<F>, l: nat, xs: seq<seq<F>>, t: nat)
    requires Sized(net) && t < |xs|
    ensures NextInputs(net, l, xs)[t] == net.mix(l, xs[t], Attend(net, l, xs, t, net.sh.nHeads))
  {
  }

  lemma ShapeValid<F(!new)>(net: Net<F>)
    requires Sized(net)
    ensures net.sh.Valid()
  {
  }

  lemma QuerySize<F(!new)>(net: Net<F>, l: nat, t: nat, x: seq<F>)
    requires Sized(net)
    ensures |net.query(l, t, x)| == net.sh.nHeads * net.sh.headSize
    ensures |net.key(l, t, x)| == |net.value(l, t, x)| == net.sh.nKvHeads * net.sh.headSize
  {
  }

  lemma SoftmaxSize<F(!new)>(net: Net<F>, s: seq<F>)
    requires Sized(net)
    ensures |net.softmax(s)| == |s|
  {
  }

  lemma WeightedSumStart<F>(net: Net<F>, p: seq<F>, vc: seq<Cell<F>>)
    ensures WeightedSum(net, p[..0], vc[..0]) == ZeroVector(net)
  {
  }

  lemma WeightedSumStep<F>(net: Net<F>, p: seq<F>, vc: seq<Cell<F>>, t: nat)
    requires |p| == |vc| && t < |p|
    ensures WeightedSum(net, p[..t + 1], vc[..t + 1]) == AxpyCell(net.ar, WeightedSum(net, p[..t], vc[..t]), p[t], vc[t])
  {
    assert p[..t + 1][..t] == p[..t] && vc[..t + 1][..t] == vc[..t];
  }

  /** One more value in the slice. */
  lemma MixedNext<F>(net: Net<F>, x0: seq<F>, x: seq<F>, off: nat, p: seq<F>, vc: seq<Cell<F>>, t: nat)
    requires |p| == |vc| && t < |p| && off + net.sh.headSize <= |x0|
    requires x == Splice(x0, off, WeightedSum(net, p[..t], vc[..t]))
    ensures |x| == |x0|
    ensures Splice(x, off, AxpyCell(net.ar, x[off..off + net.sh.headSize], p[t], vc[t]))
         == Splice(x0, off, WeightedSum(net, p[..t + 1], vc[..t + 1]))
  {
    hide *;
    WeightedSumStep(net, p, vc, t);
    SpliceTwice(x0, off, WeightedSum(net, p[..t], vc[..t]), WeightedSum(net, p[..t + 1], vc[..t + 1]));
  }

  lemma SpliceTwice<T>(a: seq<T>, off: nat, s: seq<T>, r: seq<T>)
    requires |s| == |r| && off + |s| <= |a|
    ensures Splice(a, off, s)[off..off + |s|] == s
    ensures Splice(Splice(a, off, s), off, r) == Splice(a, off, r)
  {
  }

  method Overwrite<T>(a: array<T>, base: nat, s: seq<T>)
    requires base + |s| <= a.Length
    modifies a
    ensures a[base..base + |s|] == s && a[..] == Splice(old(a[..]), base, s)
  {
    ghost var o := a[..];
    for i := 0 to |s|
      invariant a[..] == Splice(o, base, s[..i])
    {
      SpliceNext(o, base, s[..i], s[i]);
      assert s[..i + 1] == s[..i] + [s[i]];
      a[base + i] := s[i];
    }
    assert s[..|s|] == s;
  }
}
