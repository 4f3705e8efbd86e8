/**
  One plane (K or V) of the KV cache of core/src/tq_forward.c: a flat array
  indexed by (layer, position, head, i), holding either floats or int8 values
  with one scale per head.

  Float operations are parameters: the results hold for any of them.
 */
module KvCache {
  import opened Intervals
  import opened Words

  type int8 = x: int | -128 <= x < 128

  datatype Arith<!F> = Arith(
    zero: F, add: (F, F) -> F, mul: (F, F) -> F, gt: (F, F) -> bool, abs: F -> F,
    scaleOf: F -> F,    // largest magnitude / 127
    inverse: F -> F,    // 1 / scale, or 0 when the scale is 0
    toInt8: F -> int8,  // round half away from zero, clamp to +-127
    ofInt8: int8 -> F)

  datatype Shape = Shape(nLayers: nat, nHeads: nat, nKvHeads: nat, headSize: nat, maxSeq: nat) {
    ghost predicate Valid() {
      0 < nKvHeads && 0 < headSize && 0 < maxSeq && 0 < nHeads && nHeads % nKvHeads == 0
    }

    function KvDim(): nat { nKvHeads * headSize }
    function Rows(): nat { nLayers * maxSeq }
    function Row(layer: nat, pos: nat): nat { layer * maxSeq + pos }

    function CellNo(layer: nat, pos: nat, h: nat): nat { Row(layer, pos) * nKvHeads + h }

    /** The flat index the code computes for element i of KV head h at (layer, pos). */
    function Offset(layer: nat, pos: nat, h: nat, i: nat): nat {
      Row(layer, pos) * KvDim() + (h * headSize + i)
    }

    ghost predicate InRange(layer: nat, pos: nat, h: nat, i: nat) {
      layer < nLayers && pos < maxSeq && h < nKvHeads && i < headSize
    }

    /** The KV head that query head `h` reads. */
    function KvHead(h: nat): nat
      requires 0 < nKvHeads && 0 < nHeads / nKvHeads
    {
      h / (nHeads / nKvHeads)
    }
  }

  /** What one (layer, position, head) cell of the cache holds. */
  datatype Cell<F> = Exact(vals: seq<F>) | Quantized(q: seq<int8>, scale: F)

  function Head<T>(v: seq<T>, h: nat, size: nat): (s: seq<T>)
    requires (h + 1) * size <= |v|
    ensures |s| == size
  {
    HeadSpan(h, size, |v|);
    v[h * size..h * size + size]
  }

  lemma HeadSpan(h: nat, size: nat, n: nat)
    requires (h + 1) * size <= n
    ensures 0 <= h * size <= h * size + size <= n
  {
    assert (h + 1) * size == h * size + size;
  }

  lemma HeadInside(h: nat, heads: nat, size: nat)
    requires h < heads
    ensures (h + 1) * size <= heads * size
  {
    MulMono(size, h + 1, heads);
  }

  function Heads<T>(v: seq<T>, heads: nat, size: nat): (hs: seq<seq<T>>)
    requires |v| == heads * size
    ensures |hs| == heads
    ensures forall h :: 0 <= h < heads ==> (h + 1) * size <= |v| && hs[h] == Head(v, h, size)
  {
    seq(heads, h requires 0 <= h < heads => HeadInside(h, heads, size); Head(v, h, size))
  }

  /** Largest magnitude of a head, scanned left to right from zero. */
  function AbsMax<F>(ar: Arith<F>, s: seq<F>): F {
    if s == [] then ar.zero
    else
      var m, a := AbsMax(ar, s[..|s| - 1]), ar.abs(s[|s| - 1]);
      if ar.gt(a, m) then a else m
  }

  function ScaleOf<F>(ar: Arith<F>, s: seq<F>): F {
    ar.scaleOf(AbsMax(ar, s))
  }

  function QuantWith<F>(ar: Arith<F>, s: seq<F>, inv: F): (q: seq<int8>)
    ensures |q| == |s|
  {
    if s == [] then [] else QuantWith(ar, s[..|s| - 1], inv) + [ar.toInt8(ar.mul(s[|s| - 1], inv))]
  }

  function QuantHead<F>(ar: Arith<F>, s: seq<F>): (q: seq<int8>)
    ensures |q| == |s|
  {
    QuantWith(ar, s, ar.inverse(ScaleOf(ar, s)))
  }

  /** sum of q[i] * k[i], left to right. */
  function Dot<F>(ar: Arith<F>, q: seq<F>, k: seq<F>): F
    requires |q| == |k|
  {
    if q == [] then ar.zero
    else ar.add(Dot(ar, q[..|q| - 1], k[..|k| - 1]), ar.mul(q[|q| - 1], k[|k| - 1]))
  }

  lemma DotNext<F>(ar: Arith<F>, q: seq<F>, k: seq<F>, i: nat)
    requires |q| == |k| && i < |q|
    ensures Dot(ar, q[..i + 1], k[..i + 1]) == ar.add(Dot(ar, q[..i], k[..i]), ar.mul(q[i], k[i]))
  {
    assert q[..i + 1][..i] == q[..i] && k[..i + 1][..i] == k[..i];
  }

  function Widen<F>(ar: Arith<F>, q: seq<int8>): (s: seq<F>)
    ensures |s| == |q|
  {
    seq(|q|, i requires 0 <= i < |q| => ar.ofInt8(q[i]))
  }

  /** out[i] + a * v[i], elementwise. */
  function Axpy<F>(ar: Arith<F>, out: seq<F>, a: F, v: seq<F>): (s: seq<F>)
    requires |out| == |v|
    ensures |s| == |out|
  {
    seq(|out|, i requires 0 <= i < |out| => ar.add(out[i], ar.mul(a, v[i])))
  }

  lemma QuantNothing<F>(ar: Arith<F>, inv: F)
    ensures QuantWith(ar, [], inv) == []
  {
  }

  lemma QuantNext<F>(ar: Arith<F>, v: seq<F>, inv: F, i: nat)
    requires i < |v|
    ensures QuantWith(ar, v[..i + 1], inv) == QuantWith(ar, v[..i], inv) + [ar.toInt8(ar.mul(v[i], inv))]
  {
    assert v[..i + 1][..i] == v[..i];
  }

  /** How a head vector is kept: as it is, or as int8 values and one scale. */
  function Encode<F>(ar: Arith<F>, quantized: bool, s: seq<F>): Cell<F> {
    if quantized then Quantized(QuantHead(ar, s), ScaleOf(ar, s)) else Exact(s)
  }

  /** q . k for a key head read back from its cell. */
  function DotCell<F>(ar: Arith<F>, q: seq<F>, cell: Cell<F>): F {
    match cell
    case Exact(k) => if |k| == |q| then Dot(ar, q, k) else ar.zero
    case Quantized(k, scale) => if |k| == |q| then ar.mul(Dot(ar, q, Widen(ar, k)), scale) else ar.zero
  }

  /** out + a * v for a value head read back from its cell. */
  function AxpyCell<F>(ar: Arith<F>, out: seq<F>, a: F, cell: Cell<F>): (s: seq<F>)
    ensures |s| == |out|
  {
    match cell
    case Exact(v) => if |v| == |out| then Axpy(ar, out, a, v) else out
    case Quantized(v, scale) => if |v| == |out| then Axpy(ar, out, ar.mul(a, scale), Widen(ar, v)) else out
  }

  /** Different rows occupy disjoint stretches of the flat array, all in bounds. */
  lemma RowsDisjoint(rows: nat, dim: nat, r: nat, s: nat)
    requires r < rows && s < rows
    ensures r * dim + dim <= rows * dim
    ensures r < s ==> r * dim + dim <= s * dim
  {
    MulMono(dim, r + 1, rows);
    if r < s {
      MulMono(dim, r + 1, s);
    }
  }

  /** Every (layer, position, head, i) has a slot inside the cache ... */
  lemma SlotInBounds(sh: Shape, l: nat, t: nat, h: nat, i: nat)
    requires sh.InRange(l, t, h, i)
    ensures sh.Row(l, t) < sh.Rows() && h * sh.headSize + i < sh.KvDim()
    ensures sh.Offset(l, t, h, i) < sh.Rows() * sh.KvDim()
  {
    DigitInjective(sh.maxSeq, sh.nLayers, l, t, l, t);
    DigitInjective(sh.headSize, sh.nKvHeads, h, i, h, i);
    DigitInjective(sh.KvDim(), sh.Rows(), sh.Row(l, t), h * sh.headSize + i, sh.Row(l, t), h * sh.headSize + i);
  }

  lemma OffsetIs(sh: Shape, l: nat, t: nat, h: nat, i: nat)
    ensures sh.Offset(l, t, h, i) == sh.Row(l, t) * sh.KvDim() + (h * sh.headSize + i)
  {
    hide Shape.Row, Shape.KvDim;
  }

  lemma InRangeIs(sh: Shape, l: nat, t: nat, h: nat, i: nat)
    requires sh.InRange(l, t, h, i)
    ensures l < sh.nLayers && t < sh.maxSeq && h < sh.nKvHeads && i < sh.headSize
  {
  }

  lemma RowIs(sh: Shape, l: nat, t: nat)
    ensures sh.Row(l, t) == l * sh.maxSeq + t
  {
  }

  lemma SameRow(sh: Shape, l: nat, t: nat, h: nat, i: nat, l': nat, t': nat, h': nat, i': nat)
    requires sh.InRange(l, t, h, i) && sh.InRange(l', t', h', i')
    requires sh.Offset(l, t, h, i) == sh.Offset(l', t', h', i')
    ensures sh.Row(l, t) == sh.Row(l', t') && h * sh.headSize + i == h' * sh.headSize + i'
  {
    hide *;
    SlotInBounds(sh, l, t, h, i);
    SlotInBounds(sh, l', t', h', i');
    OffsetIs(sh, l, t, h, i);
    OffsetIs(sh, l', t', h', i');
    DigitInjective(sh.KvDim(), sh.Rows(), sh.Row(l, t), h * sh.headSize + i, sh.Row(l', t'), h' * sh.headSize + i');
  }

  lemma SamePlace(sh: Shape, l: nat, t: nat, l': nat, t': nat)
    requires l < sh.nLayers && t < sh.maxSeq && l' < sh.nLayers && t' < sh.maxSeq && sh.Row(l, t) == sh.Row(l', t')
    ensures l == l' && t == t'
  {
    hide *;
    RowIs(sh, l, t);
    RowIs(sh, l', t');
    DigitInjective(sh.maxSeq, sh.nLayers, l, t, l', t');
  }

  /** ... and no two share one. */
  lemma SlotInjective(sh: Shape, l: nat, t: nat, h: nat, i: nat, l': nat, t': nat, h': nat, i': nat)
    requires sh.InRange(l, t, h, i) && sh.InRange(l', t', h', i')
    requires sh.Offset(l, t, h, i) == sh.Offset(l', t', h', i')
    ensures (l, t, h, i) == (l', t', h', i')
  {
    hide *;
    InRangeIs(sh, l, t, h, i);
    InRangeIs(sh, l', t', h', i');
    SameRow(sh, l, t, h, i, l', t', h', i');
    SamePlace(sh, l, t, l', t');
    DigitInjective(sh.headSize, sh.nKvHeads, h, i, h', i');
  }

  lemma DigitInjective(base: nat, limit: nat, a: nat, b: nat, a': nat, b': nat)
    requires a < limit && b < base && a' < limit && b' < base
    ensures a * base + b < limit * base
    ensures a * base + b == a' * base + b' ==> a == a' && b == b'
  {
    RowsDisjoint(limit, base, a, a');
    RowsDisjoint(limit, base, a', a);
  }

  /** Every query head has a KV head. */
  lemma KvHeadInRange(sh: Shape, h: nat)
    requires sh.Valid() && h < sh.nHeads
    ensures 0 < sh.nHeads / sh.nKvHeads && sh.KvHead(h) < sh.nKvHeads
  {
    var m := sh.nHeads / sh.nKvHeads;
    assert sh.nHeads == m * sh.nKvHeads;
    if m > 0 && h / m >= sh.nKvHeads {
      MulMono(m, sh.nKvHeads, h / m);
      DivAtMost(h, m);
      assert false;
    }
  }

  /** The flat offset that the code computes is cell number times head size. */
  lemma CellOffset(r: nat, heads: nat, size: nat, h: nat)
    ensures r * (heads * size) + h * size == (r * heads + h) * size
  {
    assert r * (heads * size) == r * heads * size;
  }

  function Slot<T>(a: seq<T>, c: nat, size: nat): seq<T>
    requires c * size + size <= |a|
  {
    a[c * size..c * size + size]
  }

  lemma SlotElements<T>(a: seq<T>, c: nat, size: nat, base: nat)
    requires c * size + size <= |a| && base == c * size
    ensures |Slot(a, c, size)| == size && forall i :: 0 <= i < size ==> Slot(a, c, size)[i] == a[base + i]
  {
  }

  /** `a` with a stretch overwritten. */
  function Splice<T>(a: seq<T>, b: nat, s: seq<T>): (r: seq<T>)
    requires b + |s| <= |a|
    ensures |r| == |a|
  {
    a[..b] + s + a[b + |s|..]
  }

  lemma SpliceNext<T>(a: seq<T>, b: nat, s: seq<T>, x: T)
    requires b + |s| < |a|
    ensures Splice(a, b, s + [x]) == Splice(a, b, s)[b + |s| := x]
  {
  }

  /** What lies outside the stretch stays. */
  lemma SpliceOutside<T>(a: seq<T>, b: nat, s: seq<T>, p: nat, q: nat)
    requires b + |s| <= |a| && p <= q <= |a| && (q <= b || b + |s| <= p)
    ensures Splice(a, b, s)[p..q] == a[p..q]
  {
    var r := Splice(a, b, s);
    assert forall i :: p <= i < q ==> r[i] == a[i];
  }

  lemma SpliceInside<T>(a: seq<T>, b: nat, s: seq<T>)
    requires b + |s| <= |a|
    ensures Splice(a, b, s)[b..b + |s|] == s
  {
  }

  /** Overwriting one cell changes that cell and no other. */
  lemma SpliceCells<T>(a: seq<T>, cells: nat, size: nat, c: nat, s: seq<T>)
    requires |a| == cells * size && c < cells && |s| == size
    ensures c * size + size <= |a|
    ensures forall k :: 0 <= k < cells ==> k * size + size <= |a|
    ensures Slot(Splice(a, c * size, s), c, size) == s
    ensures forall k :: 0 <= k < cells && k != c ==> Slot(Splice(a, c * size, s), k, size) == Slot(a, k, size)
  {
    hide Splice;
    RowsDisjoint(cells, size, c, c);
    SpliceInside(a, c * size, s);
    forall k | 0 <= k < cells
      ensures k * size + size <= |a|
      ensures k != c ==> Slot(Splice(a, c * size, s), k, size) == Slot(a, k, size)
    {
      RowsDisjoint(cells, size, k, c);
      RowsDisjoint(cells, size, c, k);
      if k != c {
        SpliceOutside(a, c * size, s, k * size, k * size + size);
      }
    }
  }

  class Plane<F> {
    const ar: Arith<F>
    const quantized: bool
    const rows: nat
    const heads: nat
    const size: nat
    const vals: array<F>    // used when not quantized
    const q8: array<int8>   // used when quantized
    const scale: array<F>   // used when quantized

    ghost predicate Valid() {
      && 0 < heads && 0 < size && vals != scale && (q8 as object) != scale as object
      && (if quantized then q8.Length == rows * heads * size && scale.Length == rows * heads
          else vals.Length == rows * heads * size)
    }

    ghost function Repr(): set<object> {
      {vals as object, q8 as object, scale as object}
    }

    /** Cell number `c` is head c % heads of row c / heads. */
    ghost function At(c: nat): Cell<F>
      requires Valid() && c < rows * heads
      reads vals, q8, scale
    {
      RowsDisjoint(rows * heads, size, c, c);
      if quantized then Quantized(Slot(q8[..], c, size), scale[c]) else Exact(Slot(vals[..], c, size))
    }

    /** The whole plane, cell by cell. */
    ghost function Cells(): (cs: seq<Cell<F>>)
      requires Valid()
      reads vals, q8, scale
      ensures |cs| == rows * heads
      ensures forall c :: 0 <= c < rows * heads ==> cs[c] == At(c)
    {
      seq(rows * heads, c requires 0 <= c < rows * heads reads vals, q8, scale => At(c))
    }

    /** Wire a plane over caller-owned arrays, whatever they hold. */
    constructor (ar: Arith<F>, quantized: bool, rows: nat, heads: nat, size: nat,
                 vals: array<F>, q8: array<int8>, scale: array<F>)
      requires 0 < heads && 0 < size && vals != scale && (q8 as object) != scale as object
      requires if quantized then q8.Length == rows * heads * size && scale.Length == rows * heads
               else vals.Length == rows * heads * size
      ensures Valid() && this.ar == ar && this.quantized == quantized
      ensures this.rows == rows && this.heads == heads && this.size == size
      ensures this.vals == vals && this.q8 == q8 && this.scale == scale
    {
      this.ar, this.quantized, this.rows, this.heads, this.size := ar, quantized, rows, heads, size;
      this.vals, this.q8, this.scale := vals, q8, scale;
    }

    method CopyCell(c: nat, v: seq<F>)
      requires Valid() && !quantized && c < rows * heads && size == |v|
      modifies vals
      ensures At(c) == Encode(ar, false, v)
      ensures forall k :: 0 <= k < rows * heads && k != c ==> At(k) == old(At(k))
    {
      RowsDisjoint(rows * heads, size, c, c);
      ghost var a := vals[..];
      for i := 0 to size
        invariant vals[..] == Splice(a, c * size, v[..i])
      {
        SpliceNext(a, c * size, v[..i], v[i]);
        assert v[..i + 1] == v[..i] + [v[i]];
        vals[c * size + i] := v[i];
      }
      assert v[..size] == v;
      SpliceCells(a, rows * heads, size, c, v);
      assert forall k :: 0 <= k < rows * heads ==> old(At(k)) == Exact(Slot(a, k, size)) && At(k) == Exact(Slot(vals[..], k, size));
    }

    method ScanScale(s: seq<F>) returns (scale: F)
      ensures scale == ScaleOf(ar, s)
    {
      var m := ar.zero;
      for i := 0 to |s|
        invariant m == AbsMax(ar, s[..i])
      {
        assert s[..i + 1][..i] == s[..i];
        var a := ar.abs(s[i]);
        if ar.gt(a, m) {
          m := a;
        }
      }
      assert s[..|s|] == s;
      scale := ar.scaleOf(m);
    }

    method QuantInto(base: nat, v: seq<F>, inv: F)
      requires base + |v| <= q8.Length
      modifies q8
      ensures q8[..] == Splice(old(q8[..]), base, QuantWith(ar, v, inv))
    {
      hide QuantWith;
      QuantNothing(ar, inv);
      ghost var a := q8[..];
      assert v[..0] == [];
      for i := 0 to |v|
        invariant q8[..] == Splice(a, base, QuantWith(ar, v[..i], inv))
      {
        var x := ar.toInt8(ar.mul(v[i], inv));
        SpliceNext(a, base, QuantWith(ar, v[..i], inv), x);
        QuantNext(ar, v, inv, i);
        q8[base + i] := x;
      }
      assert v[..|v|] == v;
    }

    method QuantCell(c: nat, v: seq<F>)
      requires Valid() && quantized && c < rows * heads && size == |v|
      modifies q8, scale
      ensures At(c) == Encode(ar, true, v)
      ensures forall k :: 0 <= k < rows * heads && k != c ==> At(k) == old(At(k))
    {
      RowsDisjoint(rows * heads, size, c, c);
      ghost var a := q8[..];
      var sc := ScanScale(v);
      QuantInto(c * size, v, ar.inverse(sc));
      scale[c] := sc;
      SpliceCells(a, rows * heads, size, c, QuantHead(ar, v));
      hide Slot, Splice, QuantHead, ScaleOf;
      assert At(c) == Quantized(QuantHead(ar, v), sc);
      forall k | 0 <= k < rows * heads && k != c
        ensures At(k) == old(At(k))
      {
        assert old(At(k)) == Quantized(Slot(a, k, size), old(scale[k]));
      }
    }

    method StoreCell(c: nat, v: seq<F>)
      requires Valid() && c < rows * heads && |v| == size
      modifies vals, q8, scale
      ensures At(c) == Encode(ar, quantized, v)
      ensures forall k :: 0 <= k < rows * heads && k != c ==> At(k) == old(At(k))
    {
      if quantized {
        QuantCell(c, v);
      } else {
        CopyCell(c, v);
      }
    }

    /** tq_kv_store: every head of row `r` gets the vector, no other row changes. */
    method StoreRow(r: nat, v: seq<F>)
      requires Valid() && r < rows && |v| == heads * size
      modifies vals, q8, scale
      ensures forall h :: 0 <= h < heads ==> HoldsHead(r, h, v)
      ensures forall c :: 0 <= c < rows * heads && !(r * heads <= c < r * heads + heads) ==> At(c) == old(At(c))
    {
      RowsDisjoint(rows, heads, r, r);
      var hs := Heads(v, heads, size);
      StoreCells(r * heads, hs);
      forall h | 0 <= h < heads
        ensures HoldsHead(r, h, v)
      {
        assert At(r * heads + h) == Encode(ar, quantized, hs[h]);
      }
    }

    method StoreCells(base: nat, hs: seq<seq<F>>)
      requires Valid() && base + |hs| <= rows * heads
      requires forall h :: 0 <= h < |hs| ==> |hs[h]| == size
      modifies vals, q8, scale
      ensures forall c :: base <= c < base + |hs| ==> At(c) == Encode(ar, quantized, hs[c - base])
      ensures forall c :: 0 <= c < rows * heads && !(base <= c < base + |hs|) ==> At(c) == old(At(c))
    {
      hide At, Encode;
      for h := 0 to |hs|
        invariant forall c :: base <= c < base + h ==> At(c) == Encode(ar, quantized, hs[c - base])
        invariant forall c :: 0 <= c < rows * heads && !(base <= c < base + h) ==> At(c) == old(At(c))
      {
        StoreCell(base + h, hs[h]);
      }
    }

    ghost predicate HoldsHead(r: nat, h: nat, v: seq<F>)
      requires Valid()
      reads vals, q8, scale
    {
      && r < rows && h < heads && (h + 1) * size <= |v|
      && r * heads + h < rows * heads
      && At(r * heads + h) == Encode(ar, quantized, Head(v, h, size))
    }

    method DotExact(c: nat, q: seq<F>) returns (s: F)
      requires Valid() && !quantized && c < rows * heads && |q| == size
      ensures s == DotCell(ar, q, At(c))
    {
      RowsDisjoint(rows * heads, size, c, c);
      s := ar.zero;
      var base := c * size;
      ghost var k := Slot(vals[..], c, size);
      SlotElements(vals[..], c, size, base);
      hide Slot;
      for i := 0 to size
        invariant s == Dot(ar, q[..i], k[..i])
      {
        DotNext(ar, q, k, i);
        s := ar.add(s, ar.mul(q[i], vals[base + i]));
      }
      assert q[..size] == q && k[..size] == k;
    }

    method DotQuantized(c: nat, q: seq<F>) returns (s: F)
      requires Valid() && quantized && c < rows * heads && |q| == size
      ensures s == DotCell(ar, q, At(c))
    {
      RowsDisjoint(rows * heads, size, c, c);
      s := ar.zero;
      var base := c * size;
      ghost var k := Widen(ar, Slot(q8[..], c, size));
      SlotElements(q8[..], c, size, base);
      hide Slot;
      for i := 0 to size
        invariant s == Dot(ar, q[..i], k[..i])
      {
        DotNext(ar, q, k, i);
        s := ar.add(s, ar.mul(q[i], ar.ofInt8(q8[base + i])));
      }
      assert q[..size] == q && k[..size] == k;
      s := ar.mul(s, scale[c]);
    }

    /** tq_kv_dot_k. */
    method DotK(c: nat, q: seq<F>) returns (s: F)
      requires Valid() && c < rows * heads && |q| == size
      ensures s == DotCell(ar, q, At(c))
    {
      if quantized {
        s := DotQuantized(c, q);
      } else {
        s := DotExact(c, q);
      }
    }

    method AccExact(c: nat, a: F, out: array<F>, off: nat)
      requires Valid() && !quantized && c < rows * heads && off + size <= out.Length && out as object !in Repr()
      modifies out
      ensures out[..] == Splice(old(out[..]), off, AxpyCell(ar, old(out[off..off + size]), a, At(c)))
    {
      RowsDisjoint(rows * heads, size, c, c);
      ghost var o, s, v := out[..], out[off..off + size], Slot(vals[..], c, size);
      for i := 0 to size
        invariant vals[..] == old(vals[..])
        invariant out[..] == Splice(o, off, Axpy(ar, s[..i], a, v[..i]))
      {
        AxpyNext(ar, o, off, s, a, v, i);
        assert vals[c * size + i] == v[i];
        out[off + i] := ar.add(out[off + i], ar.mul(a, vals[c * size + i]));
      }
      assert s[..size] == s && v[..size] == v;
    }

    method AccQuantized(c: nat, a: F, out: array<F>, off: nat)
      requires Valid() && quantized && c < rows * heads && off + size <= out.Length && out as object !in Repr()
      modifies out
      ensures out[..] == Splice(old(out[..]), off, AxpyCell(ar, old(out[off..off + size]), a, At(c)))
    {
      RowsDisjoint(rows * heads, size, c, c);
      SlotElements(q8[..], c, size, c * size);
      AddScaled(c * size, ar.mul(a, scale[c]), out, off, Widen(ar, Slot(q8[..], c, size)));
    }

    /** The loop of AccQuantized over the stored values, widened. */
    method AddScaled(base: nat, k: F, out: array<F>, off: nat, ghost v: seq<F>)
      requires off + size <= out.Length && (out as object) != q8 && |v| == size && base + size <= q8.Length
      requires forall i :: 0 <= i < size ==> ar.ofInt8(q8[base + i]) == v[i]
      modifies out
      ensures out[..] == Splice(old(out[..]), off, Axpy(ar, old(out[off..off + size]), k, v))
    {
      hide Splice, Axpy;
      ghost var o, s := out[..], out[off..off + size];
      AxpyNothing(ar, o, off, k);
      assert s[..0] == [] && v[..0] == [];
      for i := 0 to size
        invariant q8[..] == old(q8[..])
        invariant out[..] == Splice(o, off, Axpy(ar, s[..i], k, v[..i]))
      {
        AxpyNext(ar, o, off, s, k, v, i);
        assert q8[base + i] == old(q8[..])[base + i];
        out[off + i] := ar.add(out[off + i], ar.mul(k, ar.ofInt8(q8[base + i])));
      }
      assert s[..size] == s && v[..size] == v;
    }

    /** tq_kv_acc_v, in place on out[off..off + size]. */
    method AccV(c: nat, a: F, out: array<F>, off: nat)
      requires Valid() && c < rows * heads && off + size <= out.Length && out as object !in Repr()
      modifies out
      ensures out[..] == Splice(old(out[..]), off, AxpyCell(ar, old(out[off..off + size]), a, At(c)))
    {
      if quantized {
        AccQuantized(c, a, out, off);
      } else {
        AccExact(c, a, out, off);
      }
    }
  }

  lemma AxpyNothing<F>(ar: Arith<F>, o: seq<F>, off: nat, a: F)
    requires off <= |o|
    ensures Splice(o, off, Axpy(ar, [], a, [])) == o
  {
  }

  lemma AxpyNext<F>(ar: Arith<F>, o: seq<F>, off: nat, s: seq<F>, a: F, v: seq<F>, i: nat)
    requires |s| == |v| && i < |s| && off + |s| <= |o| && s == o[off..off + |s|]
    ensures var done := Splice(o, off, Axpy(ar, s[..i], a, v[..i]));
      && done[off + i] == s[i]
      && Splice(o, off, Axpy(ar, s[..i + 1], a, v[..i + 1])) == done[off + i := ar.add(s[i], ar.mul(a, v[i]))]
  {
    SpliceNext(o, off, Axpy(ar, s[..i], a, v[..i]), ar.add(s[i], ar.mul(a, v[i])));
    assert Axpy(ar, s[..i + 1], a, v[..i + 1]) == Axpy(ar, s[..i], a, v[..i]) + [ar.add(s[i], ar.mul(a, v[i]))];
  }
}
