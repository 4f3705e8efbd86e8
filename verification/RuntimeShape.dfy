/**
  From an opened model to a decode step: what the loader's checks guarantee of
  the shape, and that the pieces tq_runtime_init carves are the arrays the step
  works on.
 */
module RuntimeShape {
  import opened EtqFormat
  import opened Forward
  import opened GroupedAttention
  import opened KvCache
  import opened ModelBinding
  import opened ModelOpen
  import opened Words
  import Arena
  import DotKernels
  import Matvec
  import Rope

  // ------------------------------------------------------------- what is accepted

  /** The magic number spells "ETQ1" in the file. */
  lemma MagicSpells()
    ensures Le(MAGIC, 4) == Ascii("ETQ1")
  {
    assert Le(MAGIC, 4) == [MAGIC % 256] + Le(MAGIC / 256, 3);
    assert Le(MAGIC / 256, 3) == [MAGIC / 256 % 256] + Le(MAGIC / 256 / 256, 2);
    assert Le(MAGIC / 256 / 256, 2) == [MAGIC / 256 / 256 % 256] + Le(MAGIC / 256 / 256 / 256, 1);
    assert Le(MAGIC / 256 / 256 / 256, 1) == [MAGIC / 256 / 256 / 256 % 256] + Le(MAGIC / 256 / 256 / 256 / 256, 0);
  }

  function ShapeOf(h: Header, maxSeq: nat): Shape
    requires Sound(h)
  {
    Shape(h.nLayers, h.nHeads, h.nKvHeads, h.dim / h.nHeads, maxSeq)
  }

  function DimsOf(h: Header): Arena.Dims
    requires Sound(h)
  {
    Arena.Dims(h.dim, h.hidden, h.nLayers, h.nHeads, h.nKvHeads, h.vocab, h.seqLen)
  }

  lemma WholeOf(a: nat, b: nat)
    requires b > 0 && a > 0 && a % b == 0
    ensures a / b > 0 && a == b * (a / b)
  {
    assert a == a / b * b + a % b;
  }

  ghost predicate Multiple(a: int, b: int) {
    exists k: nat :: a == b * k
  }

  lemma MultipleIs(a: int, b: int)
    requires a > 0 && b > 0
    ensures Multiple(a, b) <==> a % b == 0
  {
    if a % b == 0 {
      WholeOf(a, b);
    }
    if Multiple(a, b) {
      var k: nat :| a == b * k;
      NoRemainder(b, k);
    }
  }

  lemma NoRemainder(b: nat, k: nat)
    requires b > 0
    ensures b * k % b == 0
  {
    QuotientIs(b * k, b, k);
    assert (k + 1) * b == b * k + b;
    assert b * k == b * k / b * b + b * k % b;
  }

  /** A header passes exactly when it says this. */
  lemma AcceptedExactly(h: Header, bytes: nat)
    ensures HeaderRc(h, bytes) == OK <==>
      && h.magic == UnLe(Ascii("ETQ1")) && h.version == 1 && h.headerBytes == 256 && h.arch == 0
      && (h.qtype == DT_Q8_0 || h.qtype == DT_Q4_0) && h.groupSize == 32 && h.fileBytes <= bytes
      && h.dim > 0 && h.hidden > 0 && h.nLayers > 0 && h.nHeads > 0 && h.nKvHeads > 0 && h.vocab > 0 && h.seqLen > 0
      && Multiple(h.dim, h.nHeads) && Multiple(h.nHeads, h.nKvHeads) && Multiple(h.dim, 32) && Multiple(h.hidden, 32)
  {
    MagicSpells();
    LeRoundTrip(MAGIC, 4);
    hide Multiple;
    if Sound(h) {
      MultipleIs(h.dim, h.nHeads);
      MultipleIs(h.nHeads, h.nKvHeads);
      MultipleIs(h.dim, 32);
      MultipleIs(h.hidden, 32);
    }
  }

  /** A header that passes has dimensions the decode step can work with. */
  lemma AcceptedShape(h: Header, bytes: nat, maxSeq: nat)
    requires HeaderRc(h, bytes) == OK && maxSeq > 0
    ensures Sound(h) && ShapeOf(h, maxSeq).Valid() && DimsOf(h).Valid()
    ensures var sh := ShapeOf(h, maxSeq);
      && sh.nHeads * sh.headSize == h.dim && sh.KvDim() == DimsOf(h).KvDim() == KvDim(h) <= h.dim
      && sh.nHeads == sh.nKvHeads * (h.nHeads / h.nKvHeads)
  {
    WholeOf(h.dim, h.nHeads);
    WholeOf(h.nHeads, h.nKvHeads);
    var size, m := h.dim / h.nHeads, h.nHeads / h.nKvHeads;
    Smaller(h.nKvHeads, m, size);
  }

  lemma Smaller(n: nat, m: nat, size: nat)
    requires m > 0
    ensures size * n == n * size <= n * m * size
  {
    assert n * m >= n;
    assert (n * m - n) * size >= 0;
  }

  /** What the writer's configuration is refused with, when it cannot be run. */
  function Verdict(c: Config): int32 {
    if Runnable(c) then OK else if c.qtype != DT_Q8_0 && c.qtype != DT_Q4_0 then ERR_UNSUPPORTED else ERR_SHAPE
  }

  lemma VerdictIs(c: Config, ts: seq<Tensor>)
    ensures HeaderRc(HeaderFrom(c, ts), PayloadAt(ts, |ts|)) == Verdict(c)
  {
    hide PayloadAt;
  }

  /** A written file whose configuration cannot be run is refused for its quantisation, or else for its shape. */
  lemma WrittenVerdict(c: Config, ts: seq<Tensor>, buf: Bytes, base: nat, cap: nat)
    requires Layout(c, ts, buf) && Verdict(c) != OK
    ensures Open(buf, base, cap) == Refused(Verdict(c))
  {
    VerdictIs(c, ts);
    LaidInside(c, ts, buf, 0);
    hide Runnable, HeaderRc, Open, PayloadAt, Layout;
    UnrunnableFileRefused(c, ts, buf, base, cap);
  }

  /** Writer and kernels reckon the same size for whole blocks. */
  lemma SizesAgree(dtype: nat, n: nat)
    requires n % DotKernels.GROUP == 0 && dtype <= DT_U32
    ensures EtqFormat.DtypeBytes(dtype, n) == Ok(Matvec.DtypeBytes(dtype, n))
  {
  }

  // -------------------------------------------------------------------- the memory

  lemma Reordered(l: nat, s: nat, n: nat, size: nat)
    ensures l * s * (size * n) == l * s * n * size
  {
    assert l * s * (size * n) == l * s * n * size;
  }

  /** Every piece carved from fast memory is as long as the array of the step it is for. */
  lemma FastPiecesFit<F(!new)>(h: Header, bytes: nat, maxSeq: nat, rt: Runtime<F>)
    requires HeaderRc(h, bytes) == OK && maxSeq > 0
    requires rt.Valid() && rt.net.sh == ShapeOf(h, maxSeq) && rt.net.vocab == h.vocab
    ensures Sound(h)
    ensures var s := DimsOf(h).FastSizes(maxSeq);
      && s[1] == 4 * rt.xb.Length && s[6] == 4 * rt.att.Length
      && (forall l, t, x :: s[3] == 4 * |rt.net.query(l, t, x)|)
      && (forall l, t, x :: s[10] == 4 * |rt.net.key(l, t, x)| && s[11] == 4 * |rt.net.value(l, t, x)|)
      && (forall x :: s[7] == 4 * |rt.net.classify(x)|)
  {
    AcceptedShape(h, bytes, maxSeq);
    var sh := ShapeOf(h, maxSeq);
    assert sh.KvDim() == DimsOf(h).KvDim();
    forall l, t, x
      ensures |rt.net.query(l, t, x)| == h.dim
      ensures |rt.net.key(l, t, x)| == |rt.net.value(l, t, x)| == sh.KvDim()
    {
      QuerySize(rt.net, l, t, x);
    }
    hide Shape.KvDim, HeaderRc;
  }

  /** The tables of one position and the quantised activations fit theirs. */
  lemma SmallPiecesFit(h: Header, bytes: nat, maxSeq: nat, t: Rope.Turn, xq: seq<DotKernels.Q80>, hq: seq<DotKernels.Q80>)
    requires HeaderRc(h, bytes) == OK && maxSeq > 0 && Sound(h) && t.For(h.dim / h.nHeads)
    requires Matvec.Activations(xq, h.dim) && Matvec.Activations(hq, h.hidden)
    ensures var s := DimsOf(h).FastSizes(maxSeq);
      s[8] == 34 * |xq| && s[9] == 34 * |hq| && s[12] == 4 * |t.cos| && s[13] == 4 * |t.sin|
  {
    hide HeaderRc;
  }

  /** The cache pieces are the cache's planes, for both kinds of cache. */
  lemma CachePiecesFit<F(!new)>(h: Header, bytes: nat, maxSeq: nat, rt: Runtime<F>)
    requires HeaderRc(h, bytes) == OK && maxSeq > 0 && rt.Valid() && rt.net.sh == ShapeOf(h, maxSeq)
    ensures Sound(h)
    ensures var s := DimsOf(h).CacheSizes(maxSeq, rt.net.quantized);
      if rt.net.quantized then
        |s| == 4 && s[0] == rt.k.q8.Length && s[1] == rt.v.q8.Length && s[2] == 4 * rt.k.scale.Length && s[3] == 4 * rt.v.scale.Length
      else |s| == 2 && s[0] == 4 * rt.k.vals.Length && s[1] == 4 * rt.v.vals.Length
  {
    var sh := ShapeOf(h, maxSeq);
    Reordered(h.nLayers, maxSeq, h.nKvHeads, sh.headSize);
    assert Forward.Fitting(rt.net, rt.k) && Forward.Fitting(rt.net, rt.v);
    assert DimsOf(h).KvCount(maxSeq) == sh.Rows() * sh.nKvHeads * sh.headSize;
    hide HeaderRc, Sized;
  }
}
