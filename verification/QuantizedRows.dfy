/**
  The rows of a quantised matrix from the exporter to the kernels: what
  tools/etq/quantize.py packs the kernels read back, and their dot product is,
  over exact reals, that of the dequantised vectors.
 */
module QuantizedRows {
  import opened DotKernels
  import opened Matvec
  import opened Products
  import opened Words
  import Rope

  /** A quantised block before packing: its scale and 32 levels. */
  datatype Levels = Levels(d: half, q: seq<int>) {
    /** The sixteen levels of quantize_q4_0 ... */
    predicate Nibbles() {
      |q| == GROUP && forall j :: 0 <= j < GROUP ==> 0 <= q[j] < 16
    }

    /** ... and the signed bytes of quantize_q8_0. */
    predicate Bytes() {
      |q| == GROUP && forall j :: 0 <= j < GROUP ==> -128 <= q[j] < 128
    }
  }

  /** A half as its bytes lie in memory. */
  function HalfBytes(d: half): (s: seq<byte>)
    ensures |s| == 2
  {
    [d % 256, d / 256]
  }

  /** lo | (hi << 4), elements j and j + 16 to a byte. */
  function Nibbled(b: Levels): (s: seq<byte>)
    requires b.Nibbles()
    ensures |s| == GROUP / 2
  {
    seq(GROUP / 2, j requires 0 <= j < GROUP / 2 => b.q[j] + 16 * b.q[j + 16])
  }

  /** q.view(np.uint8). */
  function Viewed(b: Levels): (s: seq<byte>)
    requires b.Bytes()
    ensures |s| == GROUP
  {
    seq(GROUP, j requires 0 <= j < GROUP => if b.q[j] < 0 then b.q[j] + 256 else b.q[j])
  }

  predicate AllNibbles(bs: seq<Levels>) {
    forall b :: 0 <= b < |bs| ==> bs[b].Nibbles()
  }

  predicate AllBytes(bs: seq<Levels>) {
    forall b :: 0 <= b < |bs| ==> bs[b].Bytes()
  }

  /** The payload of quantize_q4_0. */
  function Packed40(bs: seq<Levels>): (s: seq<byte>)
    requires AllNibbles(bs)
    ensures |s| == |bs| * 18
  {
    if bs == [] then []
    else
      var n := |bs| - 1;
      Packed40(bs[..n]) + (HalfBytes(bs[n].d) + Nibbled(bs[n]))
  }

  /** The payload of quantize_q8_0. */
  function Packed80(bs: seq<Levels>): (s: seq<byte>)
    requires AllBytes(bs)
    ensures |s| == |bs| * 34
  {
    if bs == [] then []
    else
      var n := |bs| - 1;
      Packed80(bs[..n]) + (HalfBytes(bs[n].d) + Viewed(bs[n]))
  }

  /** What the levels of a Q4 block stand for: level 8 is zero. */
  function Centre(b: Levels): Block
    requires b.Nibbles()
  {
    Block(b.d, seq(GROUP, j requires 0 <= j < GROUP => b.q[j] - 8))
  }

  function Centred(bs: seq<Levels>): (r: seq<Block>)
    requires AllNibbles(bs)
    ensures |r| == |bs|
  {
    seq(|bs|, b requires 0 <= b < |bs| => Centre(bs[b]))
  }

  function Plainly(bs: seq<Levels>): (r: seq<Block>)
    requires AllBytes(bs)
    ensures |r| == |bs|
  {
    seq(|bs|, b requires 0 <= b < |bs| => Block(bs[b].d, bs[b].q))
  }

  lemma LoadOfHalf(d: half)
    ensures LoadHalf(HalfBytes(d)[0], HalfBytes(d)[1]) == d
  {
  }

  lemma NibblesUnpack(b: Levels)
    requires b.Nibbles()
    ensures Unpack40(Q40(b.d, Nibbled(b))) == Centre(b)
  {
    var u := Unpack40(Q40(b.d, Nibbled(b)));
    forall j | 0 <= j < GROUP
      ensures u.vals[j] == b.q[j] - 8
    {
      var k := if j < 16 then j else j - 16;
      NibbleParts(b.q[k], b.q[k + 16]);
    }
  }

  lemma NibbleParts(lo: int, hi: int)
    requires 0 <= lo < 16 && 0 <= hi < 16
    ensures Low(lo + 16 * hi) == lo - 8 && High(lo + 16 * hi) == hi - 8
  {
  }

  lemma BytesUnpack(b: Levels)
    requires b.Bytes()
    ensures Unpack80(Q80(b.d, Viewed(b))) == Block(b.d, b.q)
  {
  }

  lemma BlockAt(s: seq<byte>, head: seq<byte>, half2: seq<byte>, body: seq<byte>)
    requires s == head + (half2 + body) && |half2| == 2
    ensures s[..|head|] == head && s[|head|] == half2[0] && s[|head| + 1] == half2[1] && s[|head| + 2..] == body
  {
  }

  lemma Row40Last(s: seq<byte>, n: nat)
    requires |s| == (n + 1) * 18
    ensures Row40(s, n + 1) == Row40(s[..n * 18], n) + [Q40(LoadHalf(s[n * 18], s[n * 18 + 1]), s[n * 18 + 2..])]
  {
    var r, t := Row40(s, n + 1), Row40(s[..n * 18], n);
    assert s[n * 18 + 2..] == s[n * 18 + 2..n * 18 + 18];
    forall b | 0 <= b < n
      ensures r[b] == t[b]
    {
      assert s[..n * 18][b * 18 + 2..b * 18 + 18] == s[b * 18 + 2..b * 18 + 18];
    }
  }

  lemma Row80Last(s: seq<byte>, n: nat)
    requires |s| == (n + 1) * 34
    ensures Row80(s, n + 1) == Row80(s[..n * 34], n) + [Q80(LoadHalf(s[n * 34], s[n * 34 + 1]), s[n * 34 + 2..])]
  {
    var r, t := Row80(s, n + 1), Row80(s[..n * 34], n);
    assert s[n * 34 + 2..] == s[n * 34 + 2..n * 34 + 34];
    forall b | 0 <= b < n
      ensures r[b] == t[b]
    {
      assert s[..n * 34][b * 34 + 2..b * 34 + 34] == s[b * 34 + 2..b * 34 + 34];
    }
  }

  /** A Q4 row reads back as the levels packed, centred. */
  lemma {:induction false} Row40Reads(bs: seq<Levels>)
    requires AllNibbles(bs)
    ensures Blocks40(Row40(Packed40(bs), |bs|)) == Centred(bs)
  {
    if bs != [] {
      hide *;
      var n := |bs| - 1;
      var s, b := Packed40(bs), bs[n];
      Packed40Last(bs);
      CentredLast(bs);
      Row40Reads(bs[..n]);
      BlockAt(s, Packed40(bs[..n]), HalfBytes(b.d), Nibbled(b));
      Row40Last(s, n);
      LoadOfHalf(b.d);
      NibblesUnpack(b);
      Blocks40Last(Row40(s[..n * 18], n), Q40(b.d, Nibbled(b)));
    } else {
      Nothing40();
    }
  }

  lemma Nothing40()
    ensures Packed40([]) == [] && Blocks40(Row40([], 0)) == Centred([])
  {
  }

  lemma Packed40Last(bs: seq<Levels>)
    requires bs != [] && AllNibbles(bs)
    ensures var (n, b) := (|bs| - 1, bs[|bs| - 1]);
      && AllNibbles(bs[..n]) && b.Nibbles()
      && Packed40(bs) == Packed40(bs[..n]) + (HalfBytes(b.d) + Nibbled(b))
  {
    hide HalfBytes, Nibbled, Levels.Nibbles;
  }

  lemma CentredLast(bs: seq<Levels>)
    requires bs != [] && AllNibbles(bs)
    ensures var (n, b) := (|bs| - 1, bs[|bs| - 1]);
      && AllNibbles(bs[..n]) && b.Nibbles()
      && Centred(bs) == Centred(bs[..n]) + [Centre(b)]
  {
    hide Centre, Levels.Nibbles;
  }

  lemma Blocks40Last(r: seq<Q40>, b: Q40)
    requires b.Valid() && forall i :: 0 <= i < |r| ==> r[i].Valid()
    ensures Blocks40(r + [b]) == Blocks40(r) + [Unpack40(b)]
  {
    hide Unpack40;
  }

  /** A Q8 row reads back as the levels packed. */
  lemma {:induction false} Row80Reads(bs: seq<Levels>)
    requires AllBytes(bs)
    ensures Blocks80(Row80(Packed80(bs), |bs|)) == Plainly(bs)
  {
    if bs != [] {
      hide *;
      var n := |bs| - 1;
      var s, b := Packed80(bs), bs[n];
      Packed80Last(bs);
      PlainlyLast(bs);
      Row80Reads(bs[..n]);
      BlockAt(s, Packed80(bs[..n]), HalfBytes(b.d), Viewed(b));
      Row80Last(s, n);
      LoadOfHalf(b.d);
      BytesUnpack(b);
      Blocks80Last(Row80(s[..n * 34], n), Q80(b.d, Viewed(b)));
    } else {
      Nothing80();
    }
  }

  lemma Nothing80()
    ensures Packed80([]) == [] && Blocks80(Row80([], 0)) == Plainly([])
  {
  }

  lemma Packed80Last(bs: seq<Levels>)
    requires bs != [] && AllBytes(bs)
    ensures var (n, b) := (|bs| - 1, bs[|bs| - 1]);
      && AllBytes(bs[..n]) && b.Bytes()
      && Packed80(bs) == Packed80(bs[..n]) + (HalfBytes(b.d) + Viewed(b))
  {
    hide HalfBytes, Viewed, Levels.Bytes;
  }

  lemma PlainlyLast(bs: seq<Levels>)
    requires bs != [] && AllBytes(bs)
    ensures var (n, b) := (|bs| - 1, bs[|bs| - 1]);
      && AllBytes(bs[..n]) && b.Bytes()
      && Plainly(bs) == Plainly(bs[..n]) + [Block(b.d, b.q)]
  {
    hide Levels.Bytes;
  }

  lemma Blocks80Last(r: seq<Q80>, b: Q80)
    requires b.Valid() && forall i :: 0 <= i < |r| ==> r[i].Valid()
    ensures Blocks80(r + [b]) == Blocks80(r) + [Unpack80(b)]
  {
    hide Unpack80;
  }

  // ----------------------------------------------------------- over exact reals

  function ExactOps(ofHalf: half -> real): FloatOps<real> {
    FloatOps(0.0, (a: real, b: real) => a + b, (a: real, b: real) => Times(a, b), (x: int) => x as real, ofHalf)
  }

  predicate WholeBlocks(bs: seq<Block>) {
    forall b :: 0 <= b < |bs| ==> |bs[b].vals| == GROUP
  }

  function Scaled(ofHalf: half -> real, b: Block): (s: seq<real>)
    ensures |s| == |b.vals|
  {
    seq(|b.vals|, j requires 0 <= j < |b.vals| => Times(b.vals[j] as real, ofHalf(b.d)))
  }

  /** tq_dequantize. */
  function Dequantized(ofHalf: half -> real, bs: seq<Block>): (s: seq<real>)
    requires WholeBlocks(bs)
    ensures |s| == |bs| * GROUP
  {
    if bs == [] then []
    else
      var n := |bs| - 1;
      Dequantized(ofHalf, bs[..n]) + Scaled(ofHalf, bs[n])
  }

  lemma ProductOfScaled(a: int, b: int, d: real, e: real)
    ensures Times(Times(a as real, d), Times(b as real, e)) == Times(Times(Mul(a, b) as real, d), e)
  {
  }

  lemma SumScaled(a: int, b: int, d: real, e: real)
    ensures Times(Times((a + b) as real, d), e) == Times(Times(a as real, d), e) + Times(Times(b as real, d), e)
    ensures Times(Times(0 as real, d), e) == 0.0
  {
  }

  /** The integer sum of a block, scaled, is the product of the scaled values. */
  lemma {:induction false} BlockDot(ofHalf: half -> real, w: Block, x: Block, n: nat)
    requires n <= |w.vals| == |x.vals|
    ensures RealDot(Scaled(ofHalf, w)[..n], Scaled(ofHalf, x)[..n])
         == Times(Times(IntDot(w.vals, x.vals, 0, n) as real, ofHalf(w.d)), ofHalf(x.d))
  {
    if n == 0 {
      SumScaled(0, 0, ofHalf(w.d), ofHalf(x.d));
    } else {
      BlockDot(ofHalf, w, x, n - 1);
      var a, b := Scaled(ofHalf, w), Scaled(ofHalf, x);
      assert a[..n][..n - 1] == a[..n - 1] && b[..n][..n - 1] == b[..n - 1];
      hide Times, Mul;
      ProductOfScaled(w.vals[n - 1], x.vals[n - 1], ofHalf(w.d), ofHalf(x.d));
      SumScaled(IntDot(w.vals, x.vals, 0, n - 1), Mul(w.vals[n - 1], x.vals[n - 1]), ofHalf(w.d), ofHalf(x.d));
    }
  }

  lemma TermIs(ofHalf: half -> real, w: Block, x: Block)
    requires |w.vals| == |x.vals| == GROUP
    ensures Term(ExactOps(ofHalf), w, x) == Times(Times(IntDot(w.vals, x.vals, 0, GROUP) as real, ofHalf(w.d)), ofHalf(x.d))
  {
    hide Times, IntDot;
  }

  lemma DotLast(ofHalf: half -> real, w: seq<Block>, x: seq<Block>)
    requires |w| == |x| > 0 && WholeBlocks(w) && WholeBlocks(x)
    ensures var n := |w| - 1;
      && WholeBlocks(w[..n]) && WholeBlocks(x[..n])
      && Dot(ExactOps(ofHalf), w, x) == Dot(ExactOps(ofHalf), w[..n], x[..n]) + Term(ExactOps(ofHalf), w[n], x[n])
  {
    hide Term;
  }

  lemma DequantizedLast(ofHalf: half -> real, w: seq<Block>)
    requires w != [] && WholeBlocks(w)
    ensures var n := |w| - 1;
      WholeBlocks(w[..n]) && Dequantized(ofHalf, w) == Dequantized(ofHalf, w[..n]) + Scaled(ofHalf, w[n])
  {
    hide Scaled;
  }

  /** What both backends return is the product of the dequantised vectors. */
  lemma {:induction false} DotIsDequantized(ofHalf: half -> real, w: seq<Block>, x: seq<Block>)
    requires |w| == |x| && WholeBlocks(w) && WholeBlocks(x)
    ensures Dot(ExactOps(ofHalf), w, x) == RealDot(Dequantized(ofHalf, w), Dequantized(ofHalf, x))
  {
    if w != [] {
      hide Dot, Term, Times, RealDot, IntDot, Scaled, Dequantized;
      var n := |w| - 1;
      var a, b := Scaled(ofHalf, w[n]), Scaled(ofHalf, x[n]);
      DotLast(ofHalf, w, x);
      DequantizedLast(ofHalf, w);
      DequantizedLast(ofHalf, x);
      DotIsDequantized(ofHalf, w[..n], x[..n]);
      TermIs(ofHalf, w[n], x[n]);
      BlockDot(ofHalf, w[n], x[n], GROUP);
      assert a[..GROUP] == a && b[..GROUP] == b;
      Rope.RealDotConcat(Dequantized(ofHalf, w[..n]), Dequantized(ofHalf, x[..n]), a, b);
    }
  }

  /** One output of a matrix product over an exported Q4 row: the dequantised row times the dequantised input. */
  lemma RowProduct40(ofHalf: half -> real, n: nat, bs: seq<Levels>, xq: seq<Q80>)
    requires Activations(xq, n) && AllNibbles(bs) && |bs| == n / GROUP
    ensures |Packed40(bs)| == DtypeBytes(DT_Q4_0, n)
    ensures WholeBlocks(Centred(bs)) && WholeBlocks(Blocks80(xq))
    ensures RowDot(ExactOps(ofHalf), DT_Q4_0, n, Packed40(bs), xq)
         == RealDot(Dequantized(ofHalf, Centred(bs)), Dequantized(ofHalf, Blocks80(xq)))
  {
    Row40Reads(bs);
    RowDot40(ofHalf, n, Packed40(bs), xq);
    hide Packed40, Row40, Dot, RealDot, RowDot, Dequantized, Unpack40, Unpack80, Activations;
    DotIsDequantized(ofHalf, Centred(bs), Blocks80(xq));
  }

  lemma RowDot40(ofHalf: half -> real, n: nat, row: seq<byte>, xq: seq<Q80>)
    requires Activations(xq, n) && |row| == DtypeBytes(DT_Q4_0, n)
    ensures n / GROUP * 18 == |row| && |xq| == n / GROUP
    ensures forall b :: 0 <= b < |xq| ==> xq[b].Valid()
    ensures RowDot(ExactOps(ofHalf), DT_Q4_0, n, row, xq) == Dot(ExactOps(ofHalf), Blocks40(Row40(row, n / GROUP)), Blocks80(xq))
  {
    hide Row40, Dot, Blocks40, Blocks80, Unpack40, Unpack80;
  }

  /** ... and over a Q8 row. */
  lemma RowProduct80(ofHalf: half -> real, n: nat, bs: seq<Levels>, xq: seq<Q80>)
    requires Activations(xq, n) && AllBytes(bs) && |bs| == n / GROUP
    ensures |Packed80(bs)| == DtypeBytes(DT_Q8_0, n)
    ensures WholeBlocks(Plainly(bs)) && WholeBlocks(Blocks80(xq))
    ensures RowDot(ExactOps(ofHalf), DT_Q8_0, n, Packed80(bs), xq)
         == RealDot(Dequantized(ofHalf, Plainly(bs)), Dequantized(ofHalf, Blocks80(xq)))
  {
    Row80Reads(bs);
    RowDot80(ofHalf, n, Packed80(bs), xq);
    hide Packed80, Row80, Dot, RealDot, RowDot, Dequantized, Unpack40, Unpack80, Activations;
    DotIsDequantized(ofHalf, Plainly(bs), Blocks80(xq));
  }

  lemma RowDot80(ofHalf: half -> real, n: nat, row: seq<byte>, xq: seq<Q80>)
    requires Activations(xq, n) && |row| == DtypeBytes(DT_Q8_0, n)
    ensures n / GROUP * 34 == |row| && |xq| == n / GROUP
    ensures forall b :: 0 <= b < |xq| ==> xq[b].Valid()
    ensures RowDot(ExactOps(ofHalf), DT_Q8_0, n, row, xq) == Dot(ExactOps(ofHalf), Blocks80(Row80(row, n / GROUP)), Blocks80(xq))
  {
    hide Row80, Dot, Blocks40, Blocks80, Unpack40, Unpack80;
  }
}
