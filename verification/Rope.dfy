/**
  The rotary embedding over exact reals: the exporter interleaves the rows of
  wq and wk head by head (tools/etq/convert.py), the device rotates neighbours
  (core/src/tq_forward.c), the checkpoint was trained to rotate halves.
 */
module Rope {
  import opened Products
  import opened KvCache

  /** The angles of one position, half a head of them. */
  datatype Turn = Turn(cos: seq<real>, sin: seq<real>) {
    predicate For(size: nat) {
      size > 0 && size % 2 == 0 && |cos| == |sin| == size / 2
    }
  }

  // -------------------------------------------------- vectors of whole heads

  function Flat<T>(hs: seq<seq<T>>): seq<T> {
    if hs == [] then [] else Flat(hs[..|hs| - 1]) + hs[|hs| - 1]
  }

  predicate AllOf<T>(hs: seq<seq<T>>, size: nat) {
    forall h :: 0 <= h < |hs| ==> |hs[h]| == size
  }

  predicate Whole(n: nat, size: nat)
    requires size > 0
  {
    n == 0 || (n >= size && Whole(n - size, size))
  }

  /** The heads of a flat vector. */
  function Chunks<T>(v: seq<T>, size: nat): (hs: seq<seq<T>>)
    requires size > 0 && Whole(|v|, size)
    ensures AllOf(hs, size)
    decreases |v|
  {
    if v == [] then [] else Chunks(v[..|v| - size], size) + [v[|v| - size..]]
  }

  lemma {:induction false} FlatOfChunks<T>(v: seq<T>, size: nat)
    requires size > 0 && Whole(|v|, size)
    ensures Flat(Chunks(v, size)) == v
    decreases |v|
  {
    if v != [] {
      var init := v[..|v| - size];
      FlatOfChunks(init, size);
      assert Chunks(v, size)[..|Chunks(v, size)| - 1] == Chunks(init, size);
    }
  }

  lemma {:induction false} ChunksOfFlat<T>(hs: seq<seq<T>>, size: nat)
    requires size > 0 && AllOf(hs, size)
    ensures Whole(|Flat(hs)|, size) && Chunks(Flat(hs), size) == hs
  {
    if hs != [] {
      var init, v := hs[..|hs| - 1], Flat(hs);
      ChunksOfFlat(init, size);
      assert v[..|v| - size] == Flat(init) && v[|v| - size..] == hs[|hs| - 1];
    }
  }

  /** Where head `h` starts: h * size, added up as the loop over heads does. */
  function Base(h: nat, size: nat): nat {
    if h == 0 then 0 else Base(h - 1, size) + size
  }

  lemma {:induction false} BaseIsProduct(h: nat, size: nat)
    ensures Base(h, size) == h * size
  {
    if h > 0 {
      BaseIsProduct(h - 1, size);
      assert h * size == (h - 1) * size + size;
    }
  }

  lemma {:induction false} BaseOrder(h: nat, heads: nat, size: nat)
    requires h < heads
    ensures Base(h, size) + size <= Base(heads, size)
    decreases heads
  {
    hide *;
    if h < heads - 1 {
      BaseOrder(h, heads - 1, size);
    }
    BaseNext(heads - 1, size);
  }

  lemma BaseNext(h: nat, size: nat)
    ensures Base(h + 1, size) == Base(h, size) + size && Base(0, size) == 0
  {
  }

  lemma ChunksNone<T>(v: seq<T>, size: nat)
    requires size > 0 && v == []
    ensures Whole(|v|, size) && Chunks(v, size) == []
  {
  }

  lemma ChunksLast<T>(v: seq<T>, size: nat)
    requires size > 0 && |v| >= size && Whole(|v| - size, size)
    ensures Whole(|v|, size) && Chunks(v, size) == Chunks(v[..|v| - size], size) + [v[|v| - size..]]
  {
  }

  lemma PrefixPart<T>(v: seq<T>, n: nat, lo: nat, hi: nat)
    requires lo <= hi <= n <= |v|
    ensures v[..n][lo..hi] == v[lo..hi]
  {
  }

  /** The flat vector of `heads` heads, and head `h` where the code looks for it. */
  lemma {:induction false} ChunksAt<T>(v: seq<T>, heads: nat, size: nat, h: nat)
    requires size > 0 && |v| == Base(heads, size) && h <= heads
    ensures Whole(|v|, size) && |Chunks(v, size)| == heads
    ensures h < heads ==> Base(h, size) + size <= |v| && Chunks(v, size)[h] == v[Base(h, size)..Base(h, size) + size]
    decreases heads
  {
    hide *;
    if heads == 0 {
      BaseNext(0, size);
      ChunksNone(v, size);
    } else {
      var n, at := |v| - size, if h < heads - 1 then h else 0;
      BaseNext(heads - 1, size);
      ChunksAt(v[..n], heads - 1, size, at);
      ChunksLast(v, size);
      if h < heads - 1 {
        BaseOrder(h, heads - 1, size);
        PrefixPart(v, n, Base(h, size), Base(h, size) + size);
        BaseOrder(h, heads, size);
      }
    }
  }

  lemma ChunksAreHeads<T>(v: seq<T>, heads: nat, size: nat, h: nat)
    requires size > 0 && |v| == heads * size && h < heads
    ensures Whole(|v|, size) && |Chunks(v, size)| == heads
    ensures (h + 1) * size <= |v| && Chunks(v, size)[h] == Head(v, h, size)
  {
    BaseIsProduct(heads, size);
    BaseIsProduct(h, size);
    ChunksAt(v, heads, size, h);
    HeadInside(h, heads, size);
  }

  // --------------------------------------------------------------- one head

  /** Place 2i comes from i and place 2i+1 from half + i. */
  function From(j: nat, size: nat): (r: nat)
    requires size % 2 == 0 && j < size
    ensures r < size
  {
    if j % 2 == 0 then j / 2 else size / 2 + j / 2
  }

  /** Where place j of the split layout goes. */
  function To(j: nat, size: nat): (r: nat)
    requires size % 2 == 0 && j < size
    ensures r < size
  {
    if j < size / 2 then 2 * j else 2 * (j - size / 2) + 1
  }

  /** The exporter loses no row and repeats none. */
  lemma FromInvertsTo(j: nat, size: nat)
    requires size % 2 == 0 && j < size
    ensures From(To(j, size), size) == j && To(From(j, size), size) == j
  {
  }

  function InterleaveHead<T>(a: seq<T>): (r: seq<T>)
    requires |a| % 2 == 0
    ensures |r| == |a|
  {
    seq(|a|, j requires 0 <= j < |a| => a[From(j, |a|)])
  }

  function Low(a: real, b: real, c: real, s: real): real {
    a * c - b * s
  }

  function High(a: real, b: real, c: real, s: real): real {
    a * s + b * c
  }

  /** Element 2i against element 2i+1. */
  function PairAt(a: seq<real>, t: Turn, j: nat): real
    requires t.For(|a|) && j < |a|
  {
    if j % 2 == 0 then Low(a[j], a[j + 1], t.cos[j / 2], t.sin[j / 2])
    else High(a[j - 1], a[j], t.cos[j / 2], t.sin[j / 2])
  }

  function PairsHead(a: seq<real>, t: Turn): (r: seq<real>)
    requires t.For(|a|)
    ensures |r| == |a|
  {
    seq(|a|, j requires 0 <= j < |a| => PairAt(a, t, j))
  }

  /** Element i against element half + i. */
  function HalfAt(a: seq<real>, t: Turn, j: nat): real
    requires t.For(|a|) && j < |a|
  {
    var half := |a| / 2;
    if j < half then Low(a[j], a[j + half], t.cos[j], t.sin[j])
    else High(a[j - half], a[j], t.cos[j - half], t.sin[j - half])
  }

  function HalvesHead(a: seq<real>, t: Turn): (r: seq<real>)
    requires t.For(|a|)
    ensures |r| == |a|
  {
    seq(|a|, j requires 0 <= j < |a| => HalfAt(a, t, j))
  }

  lemma Halving(i: nat)
    ensures 2 * i % 2 == 0 && 2 * i / 2 == i && (2 * i + 1) % 2 == 1 && (2 * i + 1) / 2 == i
  {
  }

  lemma InterleavedPair<T>(a: seq<T>, i: nat)
    requires |a| % 2 == 0 && i < |a| / 2
    ensures InterleaveHead(a)[2 * i] == a[i] && InterleaveHead(a)[2 * i + 1] == a[|a| / 2 + i]
  {
    Halving(i);
  }

  lemma PairRotated(a: seq<real>, t: Turn, i: nat)
    requires t.For(|a|) && i < |a| / 2
    ensures PairsHead(a, t)[2 * i] == Low(a[2 * i], a[2 * i + 1], t.cos[i], t.sin[i])
    ensures PairsHead(a, t)[2 * i + 1] == High(a[2 * i], a[2 * i + 1], t.cos[i], t.sin[i])
  {
    hide Low, High;
    Halving(i);
    assert PairAt(a, t, 2 * i) == Low(a[2 * i], a[2 * i + 1], t.cos[i], t.sin[i]);
    assert PairAt(a, t, 2 * i + 1) == High(a[2 * i], a[2 * i + 1], t.cos[i], t.sin[i]);
  }

  lemma HalvesRotated(a: seq<real>, t: Turn, i: nat)
    requires t.For(|a|) && i < |a| / 2
    ensures HalvesHead(a, t)[i] == Low(a[i], a[|a| / 2 + i], t.cos[i], t.sin[i])
    ensures HalvesHead(a, t)[|a| / 2 + i] == High(a[i], a[|a| / 2 + i], t.cos[i], t.sin[i])
  {
    hide Low, High;
  }

  lemma HeadRotationsAgree(a: seq<real>, t: Turn)
    requires t.For(|a|)
    ensures PairsHead(InterleaveHead(a), t) == InterleaveHead(HalvesHead(a, t))
  {
    hide Low, High, PairsHead, InterleaveHead, HalvesHead;
    forall j | 0 <= j < |a|
      ensures PairsHead(InterleaveHead(a), t)[j] == InterleaveHead(HalvesHead(a, t))[j]
    {
      var i := j / 2;
      InterleavedPair(a, i);
      PairRotated(InterleaveHead(a), t, i);
      InterleavedPair(HalvesHead(a, t), i);
      HalvesRotated(a, t, i);
      assert j == 2 * i || j == 2 * i + 1;
    }
  }

  // ------------------------------------------------------------ whole vectors

  function InterleaveAll<T>(hs: seq<seq<T>>, size: nat): (r: seq<seq<T>>)
    requires size % 2 == 0 && AllOf(hs, size)
    ensures |r| == |hs| && AllOf(r, size)
  {
    seq(|hs|, h requires 0 <= h < |hs| => InterleaveHead(hs[h]))
  }

  function PairsAll(hs: seq<seq<real>>, t: Turn, size: nat): (r: seq<seq<real>>)
    requires t.For(size) && AllOf(hs, size)
    ensures |r| == |hs| && AllOf(r, size)
  {
    seq(|hs|, h requires 0 <= h < |hs| => PairsHead(hs[h], t))
  }

  function HalvesAll(hs: seq<seq<real>>, t: Turn, size: nat): (r: seq<seq<real>>)
    requires t.For(size) && AllOf(hs, size)
    ensures |r| == |hs| && AllOf(r, size)
  {
    seq(|hs|, h requires 0 <= h < |hs| => HalvesHead(hs[h], t))
  }

  /** permute_reverse with heads of `size` rows; also what it does to a vector. */
  function Interleaved<T>(v: seq<T>, size: nat): seq<T>
    requires size > 0 && size % 2 == 0 && Whole(|v|, size)
  {
    Flat(InterleaveAll(Chunks(v, size), size))
  }

  /** tq_rope_apply. */
  function RotatePairs(v: seq<real>, t: Turn, size: nat): seq<real>
    requires t.For(size) && Whole(|v|, size)
  {
    Flat(PairsAll(Chunks(v, size), t, size))
  }

  /** The checkpoint's convention. */
  function RotateHalves(v: seq<real>, t: Turn, size: nat): seq<real>
    requires t.For(size) && Whole(|v|, size)
  {
    Flat(HalvesAll(Chunks(v, size), t, size))
  }

  lemma {:induction false} FlatLength<T>(hs: seq<seq<T>>, size: nat)
    requires AllOf(hs, size)
    ensures |Flat(hs)| == Base(|hs|, size)
  {
    if hs != [] {
      FlatLength(hs[..|hs| - 1], size);
      BaseNext(|hs| - 1, size);
    }
  }

  /**
    reshape(heads, 2, half).transpose(0, 2, 1) row by row: rows 2i and 2i + 1 of
    a head are rows i and half + i of the checkpoint's.
   */
  lemma InterleavedRow<T>(w: seq<T>, heads: nat, size: nat, h: nat, i: nat)
    requires size > 0 && size % 2 == 0 && |w| == Base(heads, size) && h < heads && i < size / 2
    ensures Whole(|w|, size) && |Interleaved(w, size)| == |w| && Base(h, size) + size <= |w|
    ensures Interleaved(w, size)[Base(h, size) + 2 * i] == w[Base(h, size) + i]
    ensures Interleaved(w, size)[Base(h, size) + 2 * i + 1] == w[Base(h, size) + size / 2 + i]
  {
    hide *;
    InterleavedHead(w, heads, size, h);
    var base, p := Base(h, size), Interleaved(w, size);
    InterleavedPair(w[base..base + size], i);
    PartOf(w, base, size, i);
    PartOf(w, base, size, size / 2 + i);
    PartOf(p, base, size, 2 * i);
    PartOf(p, base, size, 2 * i + 1);
  }

  lemma InterleavedHead<T>(w: seq<T>, heads: nat, size: nat, h: nat)
    requires size > 0 && size % 2 == 0 && |w| == Base(heads, size) && h < heads
    ensures Whole(|w|, size) && |Interleaved(w, size)| == |w| && Base(h, size) + size <= |w|
    ensures Interleaved(w, size)[Base(h, size)..Base(h, size) + size] == InterleaveHead(w[Base(h, size)..Base(h, size) + size])
  {
    ChunksAt(w, heads, size, h);
    var hs := InterleaveAll(Chunks(w, size), size);
    assert Interleaved(w, size) == Flat(hs) && hs[h] == InterleaveHead(Chunks(w, size)[h]);
    hide *;
    ChunksOfFlat(hs, size);
    FlatLength(hs, size);
    ChunksAt(Flat(hs), heads, size, h);
  }

  lemma PartOf<T>(v: seq<T>, base: nat, size: nat, k: nat)
    requires base + size <= |v| && k < size
    ensures v[base..base + size][k] == v[base + k]
  {
  }

  /** Rotating neighbours of the interleaved vector is interleaving the rotated halves. */
  lemma RotationsAgree(v: seq<real>, t: Turn, size: nat)
    requires t.For(size) && Whole(|v|, size)
    ensures Whole(|Interleaved(v, size)|, size) && Whole(|RotateHalves(v, t, size)|, size)
    ensures RotatePairs(Interleaved(v, size), t, size) == Interleaved(RotateHalves(v, t, size), size)
  {
    var hs := Chunks(v, size);
    var p, q := InterleaveAll(hs, size), HalvesAll(hs, t, size);
    ChunksOfFlat(p, size);
    ChunksOfFlat(q, size);
    forall h | 0 <= h < |hs|
      ensures PairsAll(p, t, size)[h] == InterleaveAll(q, size)[h]
    {
      HeadRotationsAgree(hs[h], t);
    }
    assert PairsAll(p, t, size) == InterleaveAll(q, size);
  }

  // ---------------------------------------------------------------- the scores

  lemma {:induction false} RealDotConcat(a: seq<real>, b: seq<real>, c: seq<real>, d: seq<real>)
    requires |a| == |b| && |c| == |d|
    ensures RealDot(a + c, b + d) == RealDot(a, b) + RealDot(c, d)
  {
    hide Times;
    if c == [] {
      assert a + c == a && b + d == b;
    } else {
      RealDotConcat(a, b, c[..|c| - 1], d[..|d| - 1]);
      assert (a + c)[..|a + c| - 1] == a + c[..|c| - 1];
      assert (b + d)[..|b + d| - 1] == b + d[..|d| - 1];
    }
  }

  /** Two lists merged, one of each in turn. */
  function Zip<T>(lo: seq<T>, hi: seq<T>): (r: seq<T>)
    requires |lo| == |hi|
    ensures |r| == 2 * |lo|
  {
    if lo == [] then [] else Zip(lo[..|lo| - 1], hi[..|hi| - 1]) + [lo[|lo| - 1], hi[|hi| - 1]]
  }

  lemma {:induction false} ZipAt<T>(lo: seq<T>, hi: seq<T>, i: nat)
    requires |lo| == |hi| && i < |lo|
    ensures Zip(lo, hi)[2 * i] == lo[i] && Zip(lo, hi)[2 * i + 1] == hi[i]
  {
    if i < |lo| - 1 {
      ZipAt(lo[..|lo| - 1], hi[..|hi| - 1], i);
    }
  }

  lemma InterleaveIsZip<T>(a: seq<T>)
    requires |a| % 2 == 0
    ensures InterleaveHead(a) == Zip(a[..|a| / 2], a[|a| / 2..])
  {
    var lo, hi := a[..|a| / 2], a[|a| / 2..];
    hide InterleaveHead, Zip;
    forall j | 0 <= j < |a|
      ensures InterleaveHead(a)[j] == Zip(lo, hi)[j]
    {
      InterleavedPair(a, j / 2);
      ZipAt(lo, hi, j / 2);
      assert j == 2 * (j / 2) || j == 2 * (j / 2) + 1;
    }
  }

  lemma {:induction false} ZipDot(a: seq<real>, b: seq<real>, c: seq<real>, d: seq<real>)
    requires |a| == |b| == |c| == |d|
    ensures RealDot(Zip(a, b), Zip(c, d)) == RealDot(a, c) + RealDot(b, d)
  {
    hide Times;
    var n := |a|;
    if n > 0 {
      ZipDot(a[..n - 1], b[..n - 1], c[..n - 1], d[..n - 1]);
      RealDotConcat(Zip(a[..n - 1], b[..n - 1]), Zip(c[..n - 1], d[..n - 1]), [a[n - 1], b[n - 1]], [c[n - 1], d[n - 1]]);
      RealDotTwo(a[n - 1], b[n - 1], c[n - 1], d[n - 1]);
    }
  }

  lemma RealDotTwo(a: real, b: real, c: real, d: real)
    ensures RealDot([a, b], [c, d]) == Times(a, c) + Times(b, d)
  {
    assert [a, b][..1] == [a] && [c, d][..1] == [c];
    assert [a][..0] == [] && [c][..0] == [];
    assert RealDot([a], [c]) == Times(a, c);
  }

  /** Interleaving both sides of one head only reorders the sum. */
  lemma HeadDot(a: seq<real>, b: seq<real>)
    requires |a| == |b| && |a| % 2 == 0
    ensures RealDot(InterleaveHead(a), InterleaveHead(b)) == RealDot(a, b)
  {
    var half := |a| / 2;
    InterleaveIsZip(a);
    InterleaveIsZip(b);
    ZipDot(a[..half], a[half..], b[..half], b[half..]);
    hide *;
    SplitDot(a, b, half);
  }

  lemma SplitDot(a: seq<real>, b: seq<real>, m: nat)
    requires |a| == |b| && m <= |a|
    ensures RealDot(a, b) == RealDot(a[..m], b[..m]) + RealDot(a[m..], b[m..])
  {
    hide *;
    RealDotConcat(a[..m], b[..m], a[m..], b[m..]);
    assert a[..m] + a[m..] == a && b[..m] + b[m..] == b;
  }

  // ----------------------------------------------------------- the projections

  ghost predicate Cols(w: seq<seq<real>>, n: nat) {
    forall i :: 0 <= i < |w| ==> |w[i]| == n
  }

  function MatVec(w: seq<seq<real>>, x: seq<real>): (r: seq<real>)
    requires forall i :: 0 <= i < |w| ==> |w[i]| == |x|
    ensures |r| == |w|
  {
    seq(|w|, i requires 0 <= i < |w| => RealDot(w[i], x))
  }

  function MatVecs(hs: seq<seq<seq<real>>>, x: seq<real>): (r: seq<seq<real>>)
    requires forall h :: 0 <= h < |hs| ==> forall i :: 0 <= i < |hs[h]| ==> |hs[h][i]| == |x|
    ensures |r| == |hs|
  {
    seq(|hs|, h requires 0 <= h < |hs| => MatVec(hs[h], x))
  }

  ghost predicate AllCols(hs: seq<seq<seq<real>>>, n: nat) {
    forall h :: 0 <= h < |hs| ==> Cols(hs[h], n)
  }

  lemma {:induction false} MatVecFlat(hs: seq<seq<seq<real>>>, x: seq<real>)
    requires AllCols(hs, |x|)
    ensures Cols(Flat(hs), |x|) && MatVec(Flat(hs), x) == Flat(MatVecs(hs, x))
  {
    if hs != [] {
      var init, last := hs[..|hs| - 1], hs[|hs| - 1];
      MatVecFlat(init, x);
      assert MatVecs(hs, x)[..|hs| - 1] == MatVecs(init, x);
      assert MatVec(Flat(init) + last, x) == MatVec(Flat(init), x) + MatVec(last, x);
    }
  }

  lemma {:induction false} ChunksCols(w: seq<seq<real>>, size: nat, n: nat)
    requires size > 0 && Whole(|w|, size) && Cols(w, n)
    ensures AllCols(Chunks(w, size), n)
    decreases |w|
  {
    if w != [] {
      ChunksCols(w[..|w| - size], size, n);
    }
  }

  lemma HeadInterleaved(hs: seq<seq<seq<real>>>, x: seq<real>, size: nat)
    requires size % 2 == 0 && AllOf(hs, size) && AllCols(hs, |x|)
    ensures AllCols(InterleaveAll(hs, size), |x|)
    ensures AllOf(MatVecs(hs, x), size) && MatVecs(InterleaveAll(hs, size), x) == InterleaveAll(MatVecs(hs, x), size)
  {
    var p := InterleaveAll(hs, size);
    assert AllCols(p, |x|);
    hide RealDot;
    forall h | 0 <= h < |hs|
      ensures MatVecs(p, x)[h] == InterleaveAll(MatVecs(hs, x), size)[h]
    {
      assert MatVec(InterleaveHead(hs[h]), x) == InterleaveHead(MatVec(hs[h], x));
    }
  }

  lemma InterleavedIs<T>(v: seq<T>, hs: seq<seq<T>>, size: nat)
    requires size > 0 && size % 2 == 0 && Whole(|v|, size) && Chunks(v, size) == hs
    ensures Interleaved(v, size) == Flat(InterleaveAll(hs, size))
  {
    hide Chunks, Flat, InterleaveAll;
  }

  /** Permuting the rows of a projection permutes what it projects to. */
  lemma MatVecInterleaved(w: seq<seq<real>>, x: seq<real>, size: nat)
    requires size > 0 && size % 2 == 0 && Whole(|w|, size) && Cols(w, |x|)
    ensures Cols(Interleaved(w, size), |x|)
    ensures MatVec(Interleaved(w, size), x) == Interleaved(MatVec(w, x), size)
  {
    hide Chunks, Flat, MatVec, MatVecs, InterleaveAll, RealDot, AllCols, Interleaved;
    var hs := Chunks(w, size);
    ChunksCols(w, size, |x|);
    FlatOfChunks(w, size);
    MatVecFlat(hs, x);
    HeadInterleaved(hs, x, size);
    ChunksOfFlat(MatVecs(hs, x), size);
    InterleavedIs(w, hs, size);
    InterleavedIs(MatVec(w, x), MatVecs(hs, x), size);
    MatVecFlat(InterleaveAll(hs, size), x);
  }

  // ----------------------------------------------------------------- attention

  /** What the device rotates: the projection by permuted rows. */
  function DeviceVector(w: seq<seq<real>>, x: seq<real>, t: Turn, size: nat): seq<real>
    requires t.For(size) && Whole(|w|, size) && forall i :: 0 <= i < |w| ==> |w[i]| == |x|
  {
    MatVecInterleaved(w, x, size);
    RotationsAgree(MatVec(w, x), t, size);
    RotatePairs(MatVec(Interleaved(w, size), x), t, size)
  }

  /** The device's vector is the checkpoint's with every head interleaved. */
  lemma DeviceIsInterleaved(w: seq<seq<real>>, x: seq<real>, t: Turn, size: nat)
    requires t.For(size) && Whole(|w|, size) && Cols(w, |x|)
    ensures var d, c := DeviceVector(w, x, t, size), RotateHalves(MatVec(w, x), t, size);
      && Whole(|d|, size) && Whole(|c|, size)
      && Chunks(d, size) == InterleaveAll(Chunks(c, size), size)
      && |Chunks(c, size)| == |Chunks(MatVec(w, x), size)|
  {
    var y := MatVec(w, x);
    MatVecInterleaved(w, x, size);
    RotationsAgree(y, t, size);
    var c := HalvesAll(Chunks(y, size), t, size);
    ChunksOfFlat(c, size);
    ChunksOfFlat(InterleaveAll(c, size), size);
  }

  /**
    Everything one score depends on: wq with one block of rows per query head,
    wk with one per KV head, the two inputs and the angles at their positions.
   */
  datatype Attention = Attention(
    sh: Shape, wq: seq<seq<real>>, wk: seq<seq<real>>, xq: seq<real>, xk: seq<real>, tq: Turn, tk: Turn) {
    ghost predicate Valid() {
      && sh.Valid() && tq.For(sh.headSize) && tk.For(sh.headSize)
      && |wq| == sh.nHeads * sh.headSize && Cols(wq, |xq|)
      && |wk| == sh.nKvHeads * sh.headSize && Cols(wk, |xk|)
    }

    lemma Sizes(h: nat)
      requires Valid() && h < sh.nHeads
      ensures 0 < sh.nHeads / sh.nKvHeads && sh.KvHead(h) < sh.nKvHeads
      ensures Whole(|wq|, sh.headSize) && Whole(|wk|, sh.headSize)
      ensures |Chunks(MatVec(wq, xq), sh.headSize)| == sh.nHeads
      ensures |Chunks(MatVec(wk, xk), sh.headSize)| == sh.nKvHeads
    {
      KvHeadInRange(sh, h);
      ChunksAreHeads(MatVec(wq, xq), sh.nHeads, sh.headSize, h);
      ChunksAreHeads(MatVec(wk, xk), sh.nKvHeads, sh.headSize, sh.KvHead(h));
    }

    /** The score of query head `h` as the device computes it from exported weights. */
    ghost function DeviceScore(h: nat): real
      requires Valid() && h < sh.nHeads
    {
      Sizes(h);
      DeviceIsInterleaved(wq, xq, tq, sh.headSize);
      DeviceIsInterleaved(wk, xk, tk, sh.headSize);
      RealDot(Chunks(DeviceVector(wq, xq, tq, sh.headSize), sh.headSize)[h],
              Chunks(DeviceVector(wk, xk, tk, sh.headSize), sh.headSize)[sh.KvHead(h)])
    }

    /** The score of query head `h` as the checkpoint defines it. */
    ghost function CheckpointScore(h: nat): real
      requires Valid() && h < sh.nHeads
    {
      Sizes(h);
      DeviceIsInterleaved(wq, xq, tq, sh.headSize);
      DeviceIsInterleaved(wk, xk, tk, sh.headSize);
      RealDot(Chunks(RotateHalves(MatVec(wq, xq), tq, sh.headSize), sh.headSize)[h],
              Chunks(RotateHalves(MatVec(wk, xk), tk, sh.headSize), sh.headSize)[sh.KvHead(h)])
    }
  }

  /** The export changes no attention score: any head, any two positions, grouped heads or not. */
  lemma ScoresUnchanged(a: Attention, h: nat)
    requires a.Valid() && h < a.sh.nHeads
    ensures a.DeviceScore(h) == a.CheckpointScore(h)
  {
    var size := a.sh.headSize;
    a.Sizes(h);
    DeviceIsInterleaved(a.wq, a.xq, a.tq, size);
    DeviceIsInterleaved(a.wk, a.xk, a.tk, size);
    HeadDot(Chunks(RotateHalves(MatVec(a.wq, a.xq), a.tq, size), size)[h],
            Chunks(RotateHalves(MatVec(a.wk, a.xk), a.tk, size), size)[a.sh.KvHead(h)]);
  }

  // ------------------------------------------------------------------ in place

  lemma ChunksExtend<T>(v: seq<T>, at: nat, size: nat)
    requires size > 0 && at + size <= |v| && Whole(at, size)
    ensures Whole(at + size, size)
    ensures Chunks(v[..at + size], size) == Chunks(v[..at], size) + [v[at..at + size]]
  {
    var w := v[..at + size];
    assert w[..|w| - size] == v[..at] && w[|w| - size..] == v[at..at + size];
  }

  lemma RotateExtend(v: seq<real>, at: nat, t: Turn, size: nat)
    requires t.For(size) && at + size <= |v| && Whole(at, size)
    ensures Whole(at + size, size)
    ensures RotatePairs(v[..at + size], t, size) == RotatePairs(v[..at], t, size) + PairsHead(v[at..at + size], t)
  {
    ChunksExtend(v, at, size);
    var hs := Chunks(v[..at + size], size);
    hide PairsHead, Chunks;
    assert PairsAll(hs, t, size)[..|hs| - 1] == PairsAll(Chunks(v[..at], size), t, size);
  }

  lemma {:induction false} WholeNext(at: nat, n: nat, size: nat)
    requires size > 0 && Whole(n, size) && Whole(at, size) && at < n
    ensures at + size <= n
    decreases n
  {
    if at < n - size {
      WholeNext(at, n - size, size);
    } else if at > n - size {
      WholeGap(at, n - size, size);
    }
  }

  lemma {:induction false} WholeGap(a: nat, b: nat, size: nat)
    requires size > 0 && Whole(a, size) && Whole(b, size) && a > b
    ensures a >= b + size
    decreases a + b
  {
    if b > 0 {
      WholeGap(a - size, b - size, size);
    }
  }

  /** Rotates the first `n` values, whole heads, in place. */
  method RopeApply(v: array<real>, n: nat, t: Turn, size: nat)
    requires t.For(size) && n <= v.Length && Whole(n, size)
    modifies v
    ensures v[..n] == RotatePairs(old(v[..n]), t, size)
    ensures v[n..] == old(v[n..])
  {
    hide *;
    ghost var was := v[..];
    var base := 0;
    RotateNothing(was, t, size);
    while base < n
      invariant base <= n && Whole(base, size)
      invariant v[..base] == RotatePairs(was[..base], t, size)
      invariant v[base..] == was[base..]
      decreases n - base
    {
      WholeNext(base, n, size);
      RotateExtend(was, base, t, size);
      SameStart(v[..], was, base, size);
      RotateHeadAt(v, base, t, size);
      assert v[..base + size] == v[..base] + v[base..base + size];
      base := base + size;
    }
    assert was[..n] == old(v[..n]);
  }

  lemma SameStart(a: seq<real>, b: seq<real>, at: nat, n: nat)
    requires at + n <= |a| && at <= |b| && a[at..] == b[at..]
    ensures at + n <= |b| && a[at..at + n] == b[at..at + n] && a[at + n..] == b[at + n..]
  {
    assert a[at..][..n] == a[at..at + n] && b[at..][..n] == b[at..at + n];
    assert a[at..][n..] == a[at + n..] && b[at..][n..] == b[at + n..];
  }

  lemma RotateNothing(v: seq<real>, t: Turn, size: nat)
    requires t.For(size)
    ensures size > 0 && Whole(0, size) && RotatePairs(v[..0], t, size) == v[..0] == []
  {
  }

  method RotateHeadAt(v: array<real>, base: nat, t: Turn, size: nat)
    requires t.For(size) && base + size <= v.Length
    modifies v
    ensures v[base..base + size] == PairsHead(old(v[base..base + size]), t)
    ensures v[..base] == old(v[..base]) && v[base + size..] == old(v[base + size..])
  {
    ghost var was := v[base..base + size];
    for i := 0 to size / 2
      invariant forall j :: 0 <= j < 2 * i ==> v[base + j] == PairsHead(was, t)[j]
      invariant forall j :: 2 * i <= j < size ==> v[base + j] == was[j]
      invariant v[..base] == old(v[..base]) && v[base + size..] == old(v[base + size..])
    {
      var c, s := t.cos[i], t.sin[i];
      var v0, v1 := v[base + 2 * i], v[base + 2 * i + 1];
      PairRotated(was, t, i);
      hide PairsHead, Low, High;
      v[base + 2 * i] := Low(v0, v1, c, s);
      v[base + 2 * i + 1] := High(v0, v1, c, s);
    }
  }
}
