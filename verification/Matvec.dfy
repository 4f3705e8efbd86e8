/**
  tq_store_view and tq_matvec of core/src/tq_kernels.c: the mapped sweep and
  the tiled, streaming one compute the same rows.
 */
module Matvec {
  import opened DotKernels
  import opened Words

  const DT_F32 := 0
  const DT_Q8_0 := 1
  const DT_Q4_0 := 2
  const DT_U8 := 3
  const DT_U32 := 4

  /** Bytes of `n` values, 0 for a bad dtype or a broken block. */
  function DtypeBytes(dtype: nat, n: nat): nat {
    if dtype == DT_F32 || dtype == DT_U32 then n * 4
    else if dtype == DT_U8 then n
    else if dtype == DT_Q8_0 then if n % GROUP != 0 then 0 else n / GROUP * 34
    else if dtype == DT_Q4_0 then if n % GROUP != 0 then 0 else n / GROUP * 18
    else 0
  }

  predicate Quantized(dtype: nat) {
    dtype == DT_Q4_0 || dtype == DT_Q8_0
  }

  function LoadHalf(lo: byte, hi: byte): half {
    lo + 256 * hi
  }

  /** A row of 18-byte blocks. */
  function Row40(row: seq<byte>, nb: nat): (r: seq<Q40>)
    requires |row| == nb * 18
    ensures |r| == nb && forall b :: 0 <= b < nb ==> r[b].Valid()
  {
    seq(nb, b requires 0 <= b < nb => Q40(LoadHalf(row[b * 18], row[b * 18 + 1]), row[b * 18 + 2..b * 18 + 18]))
  }

  /** A row of 34-byte blocks. */
  function Row80(row: seq<byte>, nb: nat): (r: seq<Q80>)
    requires |row| == nb * 34
    ensures |r| == nb && forall b :: 0 <= b < nb ==> r[b].Valid()
  {
    seq(nb, b requires 0 <= b < nb => Q80(LoadHalf(row[b * 34], row[b * 34 + 1]), row[b * 34 + 2..b * 34 + 34]))
  }

  ghost predicate Activations(xq: seq<Q80>, n: nat) {
    n % GROUP == 0 && |xq| == n / GROUP && forall b :: 0 <= b < |xq| ==> xq[b].Valid()
  }

  /** One output value. */
  ghost function RowDot<F>(ops: FloatOps<F>, dtype: nat, n: nat, row: seq<byte>, xq: seq<Q80>): F
    requires Quantized(dtype) && Activations(xq, n) && |row| == DtypeBytes(dtype, n)
  {
    if dtype == DT_Q4_0 then Dot(ops, Blocks40(Row40(row, n / GROUP)), Blocks80(xq))
    else Dot(ops, Blocks80(Row80(row, n / GROUP)), Blocks80(xq))
  }

  method RowValue<F>(ops: FloatOps<F>, dsp: bool, dtype: nat, n: nat, row: seq<byte>, xq: seq<Q80>) returns (v: F)
    requires Quantized(dtype) && Activations(xq, n) && |row| == DtypeBytes(dtype, n)
    ensures v == RowDot(ops, dtype, n, row, xq)
  {
    if dtype == DT_Q4_0 {
      v := DotQ40Q80(ops, dsp, Row40(row, n / GROUP), xq);
    } else {
      v := DotQ80Q80(ops, dsp, Row80(row, n / GROUP), xq);
    }
  }

  // ------------------------------------------------------------ row offsets

  /** Where row `i` starts: off + row * i, added up row by row. */
  function RowAt(off: nat, row: nat, i: nat): nat {
    if i == 0 then off else RowAt(off, row, i - 1) + row
  }

  lemma {:induction false} RowAtProduct(off: nat, row: nat, i: nat)
    ensures RowAt(off, row, i) == off + row * i
  {
    if i > 0 {
      RowAtProduct(off, row, i - 1);
      assert row * i == row * (i - 1) + row;
    }
  }

  lemma {:induction false} RowAtOrder(off: nat, row: nat, i: nat, j: nat)
    requires i <= j
    ensures RowAt(off, row, i) <= RowAt(off, row, j)
    ensures i < j ==> RowAt(off, row, i) + row <= RowAt(off, row, j)
  {
    if i < j {
      RowAtOrder(off, row, i, j - 1);
    }
  }

  lemma {:induction false} RowAtSum(off: nat, row: nat, i: nat, c: nat)
    ensures RowAt(off, row, i + c) == RowAt(off, row, i) + RowAt(0, row, c)
  {
    if c > 0 {
      RowAtSum(off, row, i, c - 1);
    }
  }

  // --------------------------------------------------------------- the store

  /** A model file: mapped, or read through a tile by a callback that can fail. */
  class Store {
    const data: seq<byte>
    const mapped: bool
    const tile: array<byte>
    const fault: (nat, nat) -> bool
    ghost var log: seq<(nat, nat)>

    constructor (data: seq<byte>, mapped: bool, tile: array<byte>, fault: (nat, nat) -> bool)
      ensures this.data == data && this.mapped == mapped && this.tile == tile && this.fault == fault && log == []
    {
      this.data, this.mapped, this.tile, this.fault, this.log := data, mapped, tile, fault, [];
    }

    /** The read callback. */
    method Read(off: nat, n: nat) returns (ok: bool)
      requires off + n <= |data| && n <= tile.Length
      modifies this`log, tile
      ensures log == old(log) + [(off, n)] && ok == !fault(off, n)
      ensures ok ==> tile[..n] == data[off..off + n]
    {
      log := log + [(off, n)];
      if fault(off, n) {
        return false;
      }
      for k := 0 to n
        invariant tile[..k] == data[off..off + k] && log == old(log) + [(off, n)]
      {
        tile[k] := data[off + k];
      }
      return true;
    }

    /** The bytes in the map, or the tile filled with what was asked for. */
    method View(off: nat, n: nat) returns (ok: bool, at: seq<byte>)
      modifies this`log, tile
      ensures ok == (off + n <= |data| && (mapped || (n <= tile.Length && !fault(off, n))))
      ensures ok ==> at == data[off..off + n]
      ensures log == if off + n <= |data| && !mapped && n <= tile.Length then old(log) + [(off, n)] else old(log)
    {
      if off + n > |data| {
        return false, [];
      }
      if mapped {
        return true, data[off..off + n];
      }
      if n > tile.Length {
        return false, [];
      }
      ok := Read(off, n);
      at := tile[..n];
    }
  }

  // ------------------------------------------------------------------ matvec

  /** A product to compute: rows of `n` values of `dtype` from `off` on, times the activations. */
  datatype Job<!F> = Job(ops: FloatOps<F>, data: seq<byte>, off: nat, dtype: nat, n: nat, xq: seq<Q80>) {
    function Row(): nat {
      DtypeBytes(dtype, n)
    }

    function At(i: nat): nat {
      RowAt(off, Row(), i)
    }

    ghost predicate Sound() {
      Activations(xq, n) && Row() > 0
    }

    /** Output `i`: the dot product of row `i` of the file. */
    ghost function Value(i: nat): F
      requires Sound() && Quantized(dtype) && At(i + 1) <= |data|
    {
      RowDot(ops, dtype, n, data[At(i)..At(i + 1)], xq)
    }

    ghost predicate IsOutput(i: nat, v: F)
      requires Sound() && Quantized(dtype)
    {
      At(i + 1) <= |data| && v == Value(i)
    }
  }

  /** The first `m` outputs are the products of the first `m` rows, all inside the file. */
  ghost predicate Rows<F>(job: Job<F>, vals: seq<F>, m: nat) {
    job.Sound() && m <= |vals| && (m > 0 ==> Quantized(job.dtype)) && job.At(m) <= |job.data|
    && forall i :: 0 <= i < m ==> job.IsOutput(i, vals[i])
  }

  lemma RowsNext<F>(job: Job<F>, was: seq<F>, now: seq<F>, i: nat)
    requires Rows(job, was, i) && i < |was| == |now| && now[..i] == was[..i]
    requires Quantized(job.dtype) && job.At(i + 1) <= |job.data| && now[i] == job.Value(i)
    ensures Rows(job, now, i + 1)
  {
    assert job.IsOutput(i, now[i]);
    hide Job.IsOutput, Job.At, Job.Sound;
    forall k | 0 <= k < i + 1
      ensures job.IsOutput(k, now[k])
    {
      if k < i {
        assert now[k] == now[..i][k] == was[k];
      }
    }
  }

  /** The reads of `i` rows from `off` on, each of at most `most` whole rows, none repeated or skipped. */
  ghost predicate Sweep(log: seq<(nat, nat)>, off: nat, row: nat, i: nat, most: nat)
    decreases |log|
  {
    if log == [] then i == 0
    else
      var last := log[|log| - 1];
      exists c :: 0 < c <= most && c <= i && last == (RowAt(off, row, i - c), RowAt(0, row, c))
                  && Sweep(log[..|log| - 1], off, row, i - c, most)
  }

  /** Between the two logs the file was swept once, row by row, `d` rows. */
  ghost predicate Swept(before: seq<(nat, nat)>, after: seq<(nat, nat)>, off: nat, row: nat, d: nat, tile: nat) {
    row > 0 && before <= after && Sweep(after[|before|..], off, row, d, tile / row)
  }

  lemma SweepNext(log: seq<(nat, nat)>, off: nat, row: nat, i: nat, c: nat, most: nat)
    requires Sweep(log, off, row, i, most) && 0 < c <= most
    ensures Sweep(log + [(RowAt(off, row, i), RowAt(0, row, c))], off, row, i + c, most)
  {
    var next := log + [(RowAt(off, row, i), RowAt(0, row, c))];
    assert next[..|next| - 1] == log;
    assert next[|next| - 1] == (RowAt(off, row, i + c - c), RowAt(0, row, c));
  }

  lemma SweptNext(before: seq<(nat, nat)>, now: seq<(nat, nat)>, off: nat, row: nat, i: nat, c: nat, tile: nat)
    requires row > 0 && Swept(before, now, off, row, i, tile) && 0 < c <= tile / row
    ensures Swept(before, now + [(RowAt(off, row, i), RowAt(0, row, c))], off, row, i + c, tile)
  {
    hide Sweep, RowAt;
    SweepNext(now[|before|..], off, row, i, c, tile / row);
    AppendAfter(before, now, (RowAt(off, row, i), RowAt(0, row, c)));
  }

  lemma TailOfTail<T>(s: seq<T>, a: nat, b: nat)
    requires a + b <= |s|
    ensures s[a..][b..] == s[a + b..]
  {
  }

  lemma AppendAfter<T>(before: seq<T>, now: seq<T>, x: T)
    requires before <= now
    ensures (now + [x])[|before|..] == now[|before|..] + [x]
  {
  }

  lemma AtIs<F>(job: Job<F>, i: nat)
    ensures job.At(i) == RowAt(job.off, job.Row(), i)
  {
  }

  lemma Subslice<T>(s: seq<T>, a: nat, b: nat, p: nat, q: nat)
    requires a <= b <= |s| && p <= q <= b - a
    ensures s[a..b][p..q] == s[a + p..a + q]
  {
    var t, u := s[a..b][p..q], s[a + p..a + q];
    forall k | 0 <= k < |t|
      ensures t[k] == u[k]
    {
      assert t[k] == s[a..b][p + k] == s[a + p + k];
    }
  }

  lemma TileHolds(tile: nat, row: nat)
    requires 0 < row <= tile
    ensures tile / row >= 1 && row * (tile / row) <= tile
  {
  }

  class Kernel<F> {
    const ops: FloatOps<F>
    const dsp: bool
    var bytesRead: nat

    constructor (ops: FloatOps<F>, dsp: bool)
      ensures this.ops == ops && this.dsp == dsp && bytesRead == 0
    {
      this.ops, this.dsp, this.bytesRead := ops, dsp, 0;
    }

    /** One output from the bytes of its row. */
    method Put(job: Job<F>, out: array<F>, i: nat, row: seq<byte>)
      requires job.ops == ops && Rows(job, out[..], i) && i < out.Length
      requires Quantized(job.dtype) && job.At(i + 1) <= |job.data| && row == job.data[job.At(i)..job.At(i + 1)]
      modifies out
      ensures Rows(job, out[..], i + 1) && out[i + 1..] == old(out[i + 1..])
    {
      ghost var was := out[..];
      out[i] := RowValue(ops, dsp, job.dtype, job.n, row, job.xq);
      hide Rows;
      RowsNext(job, was, out[..], i);
    }

    /** The mapped sweep. */
    method Mapped(job: Job<F>, out: array<F>, d: nat) returns (rc: int32)
      requires job.ops == ops && job.Sound() && d <= out.Length
      modifies out
      ensures rc == if job.At(d) > |job.data| then ERR_TRUNCATED else if Quantized(job.dtype) then OK else ERR_UNSUPPORTED
      ensures rc == OK ==> Rows(job, out[..], d)
      ensures out[d..] == old(out[d..])
    {
      var row := job.Row();
      RowAtProduct(job.off, row, d);
      if job.off + row * d > |job.data| {
        return ERR_TRUNCATED;
      }
      if !Quantized(job.dtype) {
        return ERR_UNSUPPORTED;
      }
      RowAtOrder(job.off, row, 0, d);
      assert Rows(job, out[..], 0);
      var p := job.off;
      for i := 0 to d
        invariant p == job.At(i)
        invariant Rows(job, out[..], i)
        invariant out[d..] == old(out[d..])
      {
        RowAtOrder(job.off, row, i + 1, d);
        assert job.At(i + 1) == p + row;
        hide Rows, Quantized, Job.At, Job.Row, Job.Sound;
        Put(job, out, i, job.data[p..p + row]);
        assert out[d..] == out[i + 1..][d - (i + 1)..];
        p := p + row;
      }
      return OK;
    }

    /** The rows of one tile. */
    method Tile(job: Job<F>, out: array<F>, i: nat, chunk: nat, view: seq<byte>)
      requires job.ops == ops && Rows(job, out[..], i) && i + chunk <= out.Length
      requires Quantized(job.dtype) && job.At(i) <= job.At(i + chunk) <= |job.data|
      requires view == job.data[job.At(i)..job.At(i + chunk)]
      modifies out
      ensures Rows(job, out[..], i + chunk) && out[i + chunk..] == old(out[i + chunk..])
    {
      hide Rows, Quantized, Job.At, Job.Row, Job.Sound;
      ghost var was := out[..];
      var row := job.Row();
      var p := 0;
      for r := 0 to chunk
        invariant p >= 0 && job.At(i) + p == job.At(i + r)
        invariant Rows(job, out[..], i + r)
        invariant out[i + r..] == was[i + r..]
      {
        RowInTile(job, i, chunk, r, p);
        Put(job, out, i + r, view[p..p + row]);
        assert was[i + r + 1..] == was[i + r..][1..];
        p := p + row;
      }
    }

    /** One read and the rows it brings. */
    method NextTile(job: Job<F>, st: Store, out: array<F>, i: nat, chunk: nat, ghost d: nat) returns (rc: int32)
      requires job.ops == ops && job.data == st.data && job.Sound() && i + chunk <= d && i + chunk <= out.Length
      requires job.Row() <= st.tile.Length && chunk <= st.tile.Length / job.Row()
      requires !st.mapped && out as object != st.tile && (i > 0 ==> Rows(job, out[..], i))
      modifies out, st`log, st.tile
      ensures rc == OK || rc == ERR_IO || rc == ERR_UNSUPPORTED
      ensures rc == OK ==> Rows(job, out[..], i + chunk)
      ensures rc == OK ==> st.log == old(st.log) + [(job.At(i), RowAt(0, job.Row(), chunk))]
      ensures rc == ERR_UNSUPPORTED ==> !Quantized(job.dtype)
      ensures rc == ERR_IO ==> job.At(d) > |job.data| || exists o, k :: st.fault(o, k)
      ensures out[i + chunk..] == old(out[i + chunk..])
    {
      var row := job.Row();
      TileOffsets(job, st.tile.Length, i, chunk, d);
      hide Rows, Job.At, RowAt, Job.Sound, Job.Row;
      var ok, view := st.View(job.off + row * i, row * chunk);
      if !ok {
        return ERR_IO;
      }
      if !Quantized(job.dtype) {
        return ERR_UNSUPPORTED;
      }
      NoRows(job, out[..], i);
      Tile(job, out, i, chunk, view);
      return OK;
    }

    /** The tiled sweep: as many whole rows per read as the tile holds. */
    method Streamed(job: Job<F>, st: Store, out: array<F>, d: nat) returns (rc: int32)
      requires job.ops == ops && job.data == st.data && job.Sound() && d <= out.Length
      requires !st.mapped && out as object != st.tile
      modifies out, st`log, st.tile
      ensures rc == OK || rc == ERR_NOMEM || rc == ERR_IO || rc == ERR_UNSUPPORTED
      ensures rc == OK && d > 0 ==> Rows(job, out[..], d)
      ensures rc == OK ==> Swept(old(st.log), st.log, job.off, job.Row(), d, st.tile.Length)
      ensures rc == ERR_NOMEM <==> st.tile.Length < job.Row()
      ensures rc == ERR_UNSUPPORTED ==> !Quantized(job.dtype)
      ensures rc == ERR_IO ==> job.At(d) > |job.data| || exists o, k :: st.fault(o, k)
      ensures out[d..] == old(out[d..])
    {
      var row := job.Row();
      if st.tile.Length < row {
        return ERR_NOMEM;
      }
      var most := st.tile.Length / row;
      TileHolds(st.tile.Length, row);
      ghost var had, was := st.log, out[..];
      assert Swept(had, had, job.off, row, 0, st.tile.Length);
      hide Rows, Swept, Job.At, Job.Sound, Job.Row;
      var i := 0;
      while i < d
        invariant i <= d
        invariant i > 0 ==> Rows(job, out[..], i)
        invariant Swept(had, st.log, job.off, row, i, st.tile.Length)
        invariant out[i..] == was[i..]
      {
        var chunk := d - i;
        if chunk > most {
          chunk := most;
        }
        SweptNext(had, st.log, job.off, row, i, chunk, st.tile.Length);
        rc := NextTile(job, st, out, i, chunk, d);
        TailOfTail(was, i, chunk);
        TailOfTail(out[..], i + chunk, d - (i + chunk));
        if rc != OK {
          return;
        }
        AtIs(job, i);
        i := i + chunk;
      }
      return OK;
    }

    /** tq_matvec. */
    method Matvec(st: Store, out: array<F>, off: nat, dtype: nat, n: nat, d: nat, xq: seq<Q80>) returns (rc: int32)
      requires d <= out.Length && out as object != st.tile
      requires |xq| == n / GROUP && forall b :: 0 <= b < |xq| ==> xq[b].Valid()
      modifies this`bytesRead, out, st`log, st.tile
      ensures rc == ERR_SHAPE <==> DtypeBytes(dtype, n) == 0 || n % GROUP != 0
      ensures bytesRead == old(bytesRead) + if rc == ERR_SHAPE then 0 else DtypeBytes(dtype, n) * d
      ensures rc == OK && d > 0 ==> Rows(Job(ops, st.data, off, dtype, n, xq), out[..], d)
      ensures rc == OK && !st.mapped ==> Swept(old(st.log), st.log, off, DtypeBytes(dtype, n), d, st.tile.Length)
      ensures out[d..] == old(out[d..])
    {
      var row := DtypeBytes(dtype, n);
      if row == 0 || n % GROUP != 0 {
        return ERR_SHAPE;
      }
      bytesRead := bytesRead + row * d;
      var job := Job(ops, st.data, off, dtype, n, xq);
      if st.mapped {
        rc := Mapped(job, out, d);
      } else {
        rc := Streamed(job, st, out, d);
      }
    }
  }

  /** Row `r` of a tile is row `i + r` of the file. */
  lemma RowInTile<F>(job: Job<F>, i: nat, chunk: nat, r: nat, p: nat)
    requires r < chunk && job.At(i) <= job.At(i + chunk) <= |job.data| && job.At(i) + p == job.At(i + r)
    ensures job.At(i + r + 1) == job.At(i + r) + job.Row() <= |job.data|
    ensures p + job.Row() <= |job.data[job.At(i)..job.At(i + chunk)]|
    ensures job.data[job.At(i)..job.At(i + chunk)][p..p + job.Row()] == job.data[job.At(i + r)..job.At(i + r + 1)]
  {
    RowAtOrder(job.off, job.Row(), i + r + 1, i + chunk);
    assert job.At(i + r + 1) == job.At(i + r) + job.Row();
    hide Job.At, Job.Row;
    Subslice(job.data, job.At(i), job.At(i + chunk), p, p + job.Row());
  }

  lemma NoRows<F>(job: Job<F>, vals: seq<F>, i: nat)
    requires job.Sound() && (i > 0 ==> Rows(job, vals, i)) && i <= |vals| && job.At(i) <= |job.data|
    ensures Rows(job, vals, i)
  {
  }

  lemma TileOffsets<F>(job: Job<F>, tile: nat, i: nat, chunk: nat, d: nat)
    requires 0 < job.Row() <= tile && i + chunk <= d && chunk <= tile / job.Row()
    ensures job.off + job.Row() * i == job.At(i) == RowAt(job.off, job.Row(), i)
    ensures job.Row() * chunk == RowAt(0, job.Row(), chunk) <= tile
    ensures job.At(i) + job.Row() * chunk == job.At(i + chunk) <= job.At(d)
  {
    var row := job.Row();
    RowAtProduct(job.off, row, i);
    RowAtProduct(0, row, chunk);
    RowAtSum(job.off, row, i, chunk);
    RowAtOrder(job.off, row, i + chunk, d);
    RowAtOrder(0, row, chunk, tile / row);
    RowAtProduct(0, row, tile / row);
    TileHolds(tile, row);
  }

  /** Mapped or streamed, in tiles of any size, with either block loop: on success the same outputs. */
  lemma SweepsAgree<F>(job: Job<F>, a: seq<F>, b: seq<F>, d: nat)
    requires Rows(job, a, d) && Rows(job, b, d)
    ensures a[..d] == b[..d]
  {
    hide Job.Value, Job.At, Job.Sound;
    forall i | 0 <= i < d
      ensures a[i] == b[i]
    {
    }
  }
}
