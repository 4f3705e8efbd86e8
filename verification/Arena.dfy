/**
  The arena layout of core/src/tq_model.c: tq_carve, tq_runtime_init and the
  sizing functions a caller is told to use.  Sizes are unbounded integers.
 */
module Arena {
  import opened Words

  function AlignUp(v: nat): (r: nat)
    ensures v <= r < v + 16 && r % 16 == 0
  {
    (v + 15) / 16 * 16
  }

  /** The first offset from `used` on whose ADDRESS is 16-aligned. */
  function Spot(base: nat, used: nat): (r: nat)
    ensures used <= r < used + 16 && (base + r) % 16 == 0
    ensures (base + used) % 16 == 0 ==> r == used
  {
    var skew := base % 16;
    AlignUp(used + skew) - skew
  }

  /** The cursor after carving all of `sizes`, were there room. */
  function Cursor(base: nat, sizes: seq<nat>): nat {
    if sizes == [] then 0 else Spot(base, Cursor(base, sizes[..|sizes| - 1])) + sizes[|sizes| - 1]
  }

  function Total(sizes: seq<nat>): nat {
    if sizes == [] then 0 else Total(sizes[..|sizes| - 1]) + sizes[|sizes| - 1]
  }

  /** Alignment costs at most 15 bytes a piece. */
  lemma {:induction false} CursorBound(base: nat, sizes: seq<nat>)
    ensures Total(sizes) <= Cursor(base, sizes) <= Total(sizes) + 15 * |sizes|
  {
    if sizes != [] {
      CursorBound(base, sizes[..|sizes| - 1]);
    }
  }

  /** Where piece `i` goes, were there room. */
  function PlaceOf(base: nat, sizes: seq<nat>, i: nat): nat
    requires i < |sizes|
  {
    Spot(base, Cursor(base, sizes[..i]))
  }

  lemma {:induction false} CursorGrows(base: nat, sizes: seq<nat>, i: nat)
    requires i <= |sizes|
    ensures Cursor(base, sizes[..i]) <= Cursor(base, sizes)
  {
    if i < |sizes| {
      CursorGrows(base, sizes[..|sizes| - 1], i);
      assert sizes[..|sizes| - 1][..i] == sizes[..i];
    } else {
      assert sizes[..i] == sizes;
    }
  }

  lemma PlaceThenCursor(base: nat, sizes: seq<nat>, i: nat)
    requires i < |sizes|
    ensures Cursor(base, sizes[..i + 1]) == PlaceOf(base, sizes, i) + sizes[i] <= Cursor(base, sizes)
  {
    assert sizes[..i + 1][..i] == sizes[..i];
    CursorGrows(base, sizes, i + 1);
  }

  /** Pieces lie at aligned addresses, inside the buffer when the last fits, and do not overlap. */
  lemma {:induction false} PlacesDisjoint(base: nat, sizes: seq<nat>, i: nat, j: nat)
    requires i <= j < |sizes|
    ensures (base + PlaceOf(base, sizes, i)) % 16 == 0
    ensures PlaceOf(base, sizes, i) + sizes[i] <= Cursor(base, sizes)
    ensures i < j ==> PlaceOf(base, sizes, i) + sizes[i] <= PlaceOf(base, sizes, j)
  {
    PlaceThenCursor(base, sizes, i);
    if i < j {
      assert sizes[..j][..i + 1] == sizes[..i + 1];
      CursorGrows(base, sizes[..j], i + 1);
    }
  }

  /** A caller's buffer and the cursor into it. */
  class Arena {
    const base: nat
    const cap: nat
    var used: nat
    ghost var full: bool

    constructor (base: nat, cap: nat)
      ensures this.base == base && this.cap == cap && used == 0 && !full
    {
      this.base, this.cap, this.used, this.full := base, cap, 0, false;
    }

    /** The first `i` of `sizes` asked for: the cursor is where Cursor says, or they never all fit. */
    ghost predicate Asked(sizes: seq<nat>, i: nat)
      reads this
    {
      i <= |sizes| && if full then Cursor(base, sizes) > cap else used == Cursor(base, sizes[..i]) && used <= cap
    }

    lemma AskedEnds(sizes: seq<nat>)
      ensures used == 0 && !full ==> Asked(sizes, 0)
      ensures Asked(sizes, |sizes|) ==> (full <==> Cursor(base, sizes) > cap)
    {
      assert sizes[..0] == [] && sizes[..|sizes|] == sizes;
    }

    /** tq_carve: an offset, or -1 when full. */
    method Carve(bytes: nat, ghost sizes: seq<nat>, ghost i: nat) returns (at: int)
      requires i < |sizes| && bytes == sizes[i] && Asked(sizes, i)
      modifies this
      ensures Asked(sizes, i + 1) && (full <==> old(full) || at < 0)
      ensures !full ==> at == PlaceOf(base, sizes, i)
    {
      var skew := base % 16;
      var off := AlignUp(used + skew) - skew;
      assert off == Spot(base, used);
      PlaceThenCursor(base, sizes, i);
      hide Cursor, Spot, AlignUp;
      if off + bytes > cap {
        full := true;
        return -1;
      }
      used := off + bytes;
      return off;
    }
  }

  lemma CursorNext(base: nat, sizes: seq<nat>, bytes: nat)
    ensures Cursor(base, sizes + [bytes]) == Spot(base, Cursor(base, sizes)) + bytes
    ensures Cursor(base, sizes + [bytes]) >= Cursor(base, sizes)
  {
    assert (sizes + [bytes])[..|sizes|] == sizes;
  }

  // ------------------------------------------------------------ the runtime

  /** The dimensions tq_model_open accepted. */
  datatype Dims = Dims(dim: nat, hidden: nat, nLayers: nat, nHeads: nat, nKvHeads: nat, vocab: nat, seqLen: nat) {
    predicate Valid() {
      nHeads > 0 && nKvHeads > 0
    }

    function HeadSize(): nat
      requires Valid()
    {
      dim / nHeads
    }

    function KvDim(): nat
      requires Valid()
    {
      HeadSize() * nKvHeads
    }

    /** K values, and their int8 scales, of the whole cache. */
    function KvCount(maxSeq: nat): nat
      requires Valid()
    {
      nLayers * maxSeq * KvDim()
    }

    function ScaleCount(maxSeq: nat): nat {
      nLayers * maxSeq * nKvHeads
    }

    /** tq_runtime_bytes. */
    function RuntimeBytes(maxSeq: nat): nat
      requires Valid()
    {
      4 * dim * 4 + 2 * hidden * 4 + 2 * KvDim() * 4 + HeadSize() * 4 + nHeads * maxSeq * 4 + vocab * 4
      + dim / 32 * 34 + hidden / 32 * 34 + 16 * 14
    }

    /** tq_kv_bytes. */
    function KvBytes(maxSeq: nat, int8Kv: bool): nat
      requires Valid()
    {
      if int8Kv then 2 * (KvCount(maxSeq) + AlignUp(ScaleCount(maxSeq) * 4) + 16)
      else 2 * KvCount(maxSeq) * 4 + 32
    }

    /** What tq_runtime_init carves from fast memory, in its order. */
    function FastSizes(maxSeq: nat): seq<nat>
      requires Valid()
    {
      [dim * 4, dim * 4, dim * 4, dim * 4, hidden * 4, hidden * 4, nHeads * maxSeq * 4, vocab * 4,
       dim / 32 * 34, hidden / 32 * 34, KvDim() * 4, KvDim() * 4, HeadSize() / 2 * 4, HeadSize() / 2 * 4]
    }

    /** ... and from cache memory. */
    function CacheSizes(maxSeq: nat, int8Kv: bool): seq<nat>
      requires Valid()
    {
      if int8Kv then [KvCount(maxSeq), KvCount(maxSeq), ScaleCount(maxSeq) * 4, ScaleCount(maxSeq) * 4]
      else [KvCount(maxSeq) * 4, KvCount(maxSeq) * 4]
    }
  }

  lemma TotalOf(sizes: seq<nat>, last: nat)
    ensures Total(sizes + [last]) == Total(sizes) + last
  {
    assert (sizes + [last])[..|sizes|] == sizes;
  }

  lemma FastTotal(m: Dims, maxSeq: nat)
    requires m.Valid()
    ensures Total(m.FastSizes(maxSeq)) + 16 * 14 <= m.RuntimeBytes(maxSeq)
    ensures |m.FastSizes(maxSeq)| == 14
  {
    var s := m.FastSizes(maxSeq);
    FourteenTotal(s);
  }

  lemma FourteenTotal(s: seq<nat>)
    requires |s| == 14
    ensures Total(s) == s[0] + s[1] + s[2] + s[3] + s[4] + s[5] + s[6] + s[7] + s[8] + s[9] + s[10] + s[11] + s[12] + s[13]
  {
    assert Total(s[..0]) == 0;
    assert s[..14] == s;
    hide Total;
    TotalUpTo(s, 0);
    TotalUpTo(s, 1);
    TotalUpTo(s, 2);
    TotalUpTo(s, 3);
    TotalUpTo(s, 4);
    TotalUpTo(s, 5);
    TotalUpTo(s, 6);
    TotalUpTo(s, 7);
    TotalUpTo(s, 8);
    TotalUpTo(s, 9);
    TotalUpTo(s, 10);
    TotalUpTo(s, 11);
    TotalUpTo(s, 12);
    TotalUpTo(s, 13);
  }

  lemma TotalUpTo(s: seq<nat>, i: nat)
    requires i < |s|
    ensures Total(s[..i + 1]) == Total(s[..i]) + s[i]
  {
    assert s[..i + 1] == s[..i] + [s[i]];
    TotalOf(s[..i], s[i]);
  }

  /** tq_runtime_bytes is enough at any base address. */
  lemma RuntimeBytesSuffice(m: Dims, maxSeq: nat, base: nat)
    requires m.Valid()
    ensures Cursor(base, m.FastSizes(maxSeq)) <= m.RuntimeBytes(maxSeq)
  {
    FastTotal(m, maxSeq);
    CursorBound(base, m.FastSizes(maxSeq));
  }

  /** How far a base address is below the next 16-aligned one. */
  function Skew(base: nat): (r: nat)
    ensures r < 16 && (base + r) % 16 == 0
  {
    (16 - base % 16) % 16
  }

  lemma SpotAt(base: nat, used: nat)
    requires used >= Skew(base)
    ensures Spot(base, used) == Skew(base) + AlignUp(used - Skew(base))
  {
    var b, u := base % 16, used - Skew(base);
    AlignUpMore(16, u);
    assert if b == 0 then Skew(base) == 0 else Skew(base) == 16 - b;
    assert used + b == if b == 0 then u else 16 + u;
    hide AlignUp, Skew;
  }

  lemma SpotFirst(base: nat)
    ensures Spot(base, 0) == Skew(base)
  {
  }

  lemma FourCursor(base: nat, a: nat, b: nat, c: nat, d: nat)
    ensures Cursor(base, [a, b, c, d]) == Spot(base, Spot(base, Spot(base, Spot(base, 0) + a) + b) + c) + d
  {
    hide Cursor, Spot;
    CursorOne(base, a);
    CursorNext(base, [a], b);
    CursorNext(base, [a] + [b], c);
    CursorNext(base, [a] + [b] + [c], d);
    assert [a] + [b] + [c] + [d] == [a, b, c, d];
  }

  lemma CursorOne(base: nat, a: nat)
    ensures Cursor(base, [a]) == Spot(base, 0) + a
  {
    assert [a][..0] == [];
  }

  /** Two planes of `n` bytes and two of `s`, one after the other. */
  lemma PlanesCursor(base: nat, n: nat, s: nat)
    ensures Cursor(base, [n, n, s, s]) == Skew(base) + 2 * AlignUp(n) + AlignUp(s) + s
  {
    var k, a := Skew(base), AlignUp(n);
    hide Cursor, Spot, Skew, AlignUp;
    FourCursor(base, n, n, s, s);
    SpotFirst(base);
    SpotAt(base, k + n);
    SpotAt(base, k + a + n);
    AlignUpMore(a, n);
    SpotAt(base, k + (a + a + s));
    AlignUpMore(a + a, s);
  }

  /** Where the four pieces of an int8 cache end. */
  lemma Int8Cursor(m: Dims, maxSeq: nat, base: nat)
    requires m.Valid()
    ensures var n, s := m.KvCount(maxSeq), m.ScaleCount(maxSeq) * 4;
      Cursor(base, m.CacheSizes(maxSeq, true)) == Skew(base) + 2 * AlignUp(n) + AlignUp(s) + s
  {
    PlanesCursor(base, m.KvCount(maxSeq), m.ScaleCount(maxSeq) * 4);
    hide Cursor, AlignUp, Skew, Dims.KvCount, Dims.ScaleCount;
  }

  lemma AlignUpMore(a: nat, b: nat)
    requires a % 16 == 0
    ensures AlignUp(a + b) == a + AlignUp(b)
  {
  }

  /**
    For an int8 cache tq_kv_bytes is enough exactly when the base's skew and the
    padding of the two value planes fit the slack it adds.
   */
  lemma Int8BytesSufficeIff(m: Dims, maxSeq: nat, base: nat)
    requires m.Valid()
    ensures var n, s := m.KvCount(maxSeq), m.ScaleCount(maxSeq) * 4;
      Cursor(base, m.CacheSizes(maxSeq, true)) <= m.KvBytes(maxSeq, true)
      <==> Skew(base) + 2 * (AlignUp(n) - n) <= 32 + (AlignUp(s) - s)
  {
    Int8Cursor(m, maxSeq, base);
    hide Cursor, AlignUp, Skew, Dims.KvCount, Dims.ScaleCount;
  }

  /** So at an aligned base it always is, and at any base when the planes are whole 16-byte units. */
  lemma Int8BytesSuffice(m: Dims, maxSeq: nat, base: nat)
    requires m.Valid() && (base % 16 == 0 || m.KvCount(maxSeq) % 16 == 0)
    ensures Cursor(base, m.CacheSizes(maxSeq, true)) <= m.KvBytes(maxSeq, true)
  {
    Int8BytesSufficeIff(m, maxSeq, base);
    AlignedSkew(base, m.KvCount(maxSeq));
    hide *;
  }

  lemma AlignedSkew(base: nat, n: nat)
    ensures base % 16 == 0 ==> Skew(base) == 0
    ensures n % 16 == 0 ==> AlignUp(n) == n
  {
  }

  /** A float cache always fits, aligned base or not. */
  lemma FloatBytesSuffice(m: Dims, maxSeq: nat, base: nat)
    requires m.Valid()
    ensures Cursor(base, m.CacheSizes(maxSeq, false)) <= m.KvBytes(maxSeq, false)
  {
    var n := m.KvCount(maxSeq) * 4;
    hide Dims.KvCount;
    CursorBound(base, [n, n]);
    TotalOf([], n);
    TotalOf([n], n);
    assert [] + [n] == [n] && [n] + [n] == [n, n];
  }

  /** Heads of one value, four positions, an odd base: 72 bytes are asked for and 79 needed. */
  lemma UnalignedInt8CacheRunsOut()
    ensures var m := Dims(32, 32, 1, 32, 1, 1, 4);
      m.KvBytes(4, true) == 72 && Cursor(1, m.CacheSizes(4, true)) == 79
  {
    Int8Cursor(Dims(32, 32, 1, 32, 1, 1, 4), 4, 1);
  }

  const KV_F32 := 0
  const KV_Q8 := 1

  /** The pieces of a decode step, as offsets into the two buffers; -1 is NULL. */
  class TqRuntime {
    var x: int
    var xb: int
    var xb2: int
    var q: int
    var hb: int
    var hb3: int
    var att: int
    var logits: int
    var xq: int
    var hq: int
    var kb: int
    var vb: int
    var ropeCos: int
    var ropeSin: int
    var kCache: int
    var vCache: int
    var kScale: int
    var vScale: int

    ghost function FastFields(): (r: seq<int>)
      reads this
      ensures |r| == 14
    {
      [x, xb, xb2, q, hb, hb3] + [att, logits, xq, hq] + [kb, vb, ropeCos, ropeSin]
    }

    ghost function CacheFields(int8Kv: bool): (r: seq<int>)
      reads this
    {
      if int8Kv then [kCache, vCache, kScale, vScale] else [kCache, vCache]
    }

    constructor ()
    {
      x, xb, xb2, q, hb, hb3, att, logits := -1, -1, -1, -1, -1, -1, -1, -1;
      xq, hq, kb, vb, ropeCos, ropeSin := -1, -1, -1, -1, -1, -1;
      kCache, vCache, kScale, vScale := -1, -1, -1, -1;
    }

    method CarveStreams(dim: nat, hidden: nat, f: Arena, ghost s: seq<nat>)
      requires |s| == 14 && s[0] == s[1] == s[2] == s[3] == dim * 4 && s[4] == s[5] == hidden * 4 && f.Asked(s, 0)
      modifies `x, `xb, `xb2, `q, `hb, `hb3, f
      ensures f.Asked(s, 6) && (f.full <==> old(f.full) || x < 0 || xb < 0 || xb2 < 0 || q < 0 || hb < 0 || hb3 < 0)
      ensures !f.full ==> LaidFrom(f.base, s, 0, [x, xb, xb2, q, hb, hb3])
    {
      hide Arena.Asked, PlaceOf;
      x := f.Carve(dim * 4, s, 0);
      xb := f.Carve(dim * 4, s, 1);
      xb2 := f.Carve(dim * 4, s, 2);
      q := f.Carve(dim * 4, s, 3);
      hb := f.Carve(hidden * 4, s, 4);
      hb3 := f.Carve(hidden * 4, s, 5);
    }

    method CarveScores(scores: nat, vocab: nat, nx: nat, nh: nat, f: Arena, ghost s: seq<nat>)
      requires |s| == 14 && s[6] == scores * 4 && s[7] == vocab * 4 && s[8] == nx * 34 && s[9] == nh * 34 && f.Asked(s, 6)
      modifies `att, `logits, `xq, `hq, f
      ensures f.Asked(s, 10) && (f.full <==> old(f.full) || att < 0 || logits < 0 || xq < 0 || hq < 0)
      ensures !f.full ==> LaidFrom(f.base, s, 6, [att, logits, xq, hq])
    {
      hide Arena.Asked, PlaceOf;
      att := f.Carve(scores * 4, s, 6);
      logits := f.Carve(vocab * 4, s, 7);
      xq := f.Carve(nx * 34, s, 8);
      hq := f.Carve(nh * 34, s, 9);
    }

    method CarveHeads(kv: nat, half: nat, f: Arena, ghost s: seq<nat>)
      requires |s| == 14 && s[10] == s[11] == kv * 4 && s[12] == s[13] == half * 4 && f.Asked(s, 10)
      modifies `kb, `vb, `ropeCos, `ropeSin, f
      ensures f.Asked(s, 14) && (f.full <==> old(f.full) || kb < 0 || vb < 0 || ropeCos < 0 || ropeSin < 0)
      ensures !f.full ==> LaidFrom(f.base, s, 10, [kb, vb, ropeCos, ropeSin])
    {
      hide Arena.Asked, PlaceOf;
      kb := f.Carve(kv * 4, s, 10);
      vb := f.Carve(kv * 4, s, 11);
      ropeCos := f.Carve(half * 4, s, 12);
      ropeSin := f.Carve(half * 4, s, 13);
    }

    /** Everything from the fast buffer. */
    method CarveFast(m: Dims, maxSeq: nat, f: Arena) returns (ok: bool)
      requires m.Valid() && f.used == 0 && !f.full
      modifies this, f
      ensures ok <==> Cursor(f.base, m.FastSizes(maxSeq)) <= f.cap
      ensures ok ==> Laid(f.base, m.FastSizes(maxSeq), FastFields())
      ensures kCache == old(kCache) && vCache == old(vCache) && kScale == old(kScale) && vScale == old(vScale)
    {
      hide Dims.KvDim, Dims.HeadSize, Dims.FastSizes, Cursor, Laid, LaidFrom, Arena.Asked;
      ghost var s := m.FastSizes(maxSeq);
      FastSizesAre(m, maxSeq);
      f.AskedEnds(s);
      CarveStreams(m.dim, m.hidden, f, s);
      CarveScores(m.nHeads * maxSeq, m.vocab, m.dim / 32, m.hidden / 32, f, s);
      CarveHeads(m.KvDim(), m.HeadSize() / 2, f, s);
      f.AskedEnds(s);
      if !f.full {
        LaidJoin(f.base, s, [x, xb, xb2, q, hb, hb3], [att, logits, xq, hq], [kb, vb, ropeCos, ropeSin]);
      }
      ok := !(x < 0 || xb < 0 || xb2 < 0 || q < 0 || hb < 0 || hb3 < 0 || att < 0 || logits < 0
              || xq < 0 || hq < 0 || kb < 0 || vb < 0 || ropeCos < 0 || ropeSin < 0);
    }

    /** The planes of a float cache ... */
    method CarveFloat(kvn: nat, c: Arena, ghost s: seq<nat>) returns (ok: bool)
      requires s == [kvn * 4, kvn * 4] && c.Asked(s, 0) && !c.full
      modifies `kCache, `vCache, c
      ensures ok <==> Cursor(c.base, s) <= c.cap
      ensures ok ==> Laid(c.base, s, [kCache, vCache])
    {
      hide Cursor, PlaceOf, Arena.Asked;
      c.AskedEnds(s);
      kCache := c.Carve(kvn * 4, s, 0);
      vCache := c.Carve(kvn * 4, s, 1);
      c.AskedEnds(s);
      return !(kCache < 0 || vCache < 0);
    }

    /** ... and of an int8 one, with their scales. */
    method CarveInt8(kvn: nat, ns: nat, c: Arena, ghost s: seq<nat>) returns (ok: bool)
      requires s == [kvn, kvn, ns * 4, ns * 4] && c.Asked(s, 0) && !c.full
      modifies `kCache, `vCache, `kScale, `vScale, c
      ensures ok <==> Cursor(c.base, s) <= c.cap
      ensures ok ==> Laid(c.base, s, [kCache, vCache, kScale, vScale])
    {
      hide Cursor, PlaceOf, Arena.Asked;
      c.AskedEnds(s);
      kCache := c.Carve(kvn, s, 0);
      vCache := c.Carve(kvn, s, 1);
      kScale := c.Carve(ns * 4, s, 2);
      vScale := c.Carve(ns * 4, s, 3);
      c.AskedEnds(s);
      if kScale < 0 || vScale < 0 {
        return false;
      }
      return !(kCache < 0 || vCache < 0);
    }

    /** Everything from the cache buffer. */
    method CarveCache(m: Dims, maxSeq: nat, int8Kv: bool, c: Arena) returns (ok: bool)
      requires m.Valid() && c.used == 0 && !c.full
      modifies `kCache, `vCache, `kScale, `vScale, c
      ensures ok <==> Cursor(c.base, m.CacheSizes(maxSeq, int8Kv)) <= c.cap
      ensures ok ==> Laid(c.base, m.CacheSizes(maxSeq, int8Kv), CacheFields(int8Kv))
    {
      ghost var s := m.CacheSizes(maxSeq, int8Kv);
      c.AskedEnds(s);
      var kvn, ns := m.KvCount(maxSeq), m.ScaleCount(maxSeq);
      hide Dims.KvCount, Dims.ScaleCount, Cursor, PlaceOf, Laid, Arena.Asked;
      if !int8Kv {
        ok := CarveFloat(kvn, c, s);
      } else {
        ok := CarveInt8(kvn, ns, c, s);
      }
    }

    /** tq_runtime_init. */
    method Init(m: Dims, maxSeq: int, kvDtype: int, fast: Arena, cache: Arena) returns (rc: int32)
      requires m.Valid() && fast != cache && fast.used == cache.used == 0 && !fast.full && !cache.full
      modifies this, fast, cache
      ensures rc == (if maxSeq <= 0 || maxSeq > m.seqLen || (kvDtype != KV_F32 && kvDtype != KV_Q8) then ERR_RANGE
                     else if Cursor(fast.base, m.FastSizes(maxSeq)) <= fast.cap
                       && Cursor(cache.base, m.CacheSizes(maxSeq, kvDtype == KV_Q8)) <= cache.cap then OK
                     else ERR_NOMEM)
      ensures rc == OK ==> Laid(fast.base, m.FastSizes(maxSeq), FastFields())
      ensures rc == OK ==> Laid(cache.base, m.CacheSizes(maxSeq, kvDtype == KV_Q8), CacheFields(kvDtype == KV_Q8))
    {
      if maxSeq <= 0 || maxSeq > m.seqLen {
        return ERR_RANGE;
      }
      if kvDtype != KV_F32 && kvDtype != KV_Q8 {
        return ERR_RANGE;
      }
      hide Laid, Cursor, Dims.FastSizes, Dims.CacheSizes;
      var ok := CarveFast(m, maxSeq, fast);
      if !ok {
        return ERR_NOMEM;
      }
      ok := CarveCache(m, maxSeq, kvDtype == KV_Q8, cache);
      if !ok {
        return ERR_NOMEM;
      }
      return OK;
    }
  }

  /** Each offset is where its piece goes. */
  ghost predicate Laid(base: nat, sizes: seq<nat>, offs: seq<int>) {
    |offs| == |sizes| && forall i :: 0 <= i < |sizes| ==> offs[i] == PlaceOf(base, sizes, i)
  }

  lemma FastSizesAre(m: Dims, maxSeq: nat)
    requires m.Valid()
    ensures var s, kv, half := m.FastSizes(maxSeq), m.KvDim(), m.HeadSize() / 2;
      && |s| == 14 && s[0] == s[1] == s[2] == s[3] == m.dim * 4 && s[4] == s[5] == m.hidden * 4
      && s[6] == m.nHeads * maxSeq * 4 && s[7] == m.vocab * 4 && s[8] == m.dim / 32 * 34 && s[9] == m.hidden / 32 * 34
      && s[10] == s[11] == kv * 4 && s[12] == s[13] == half * 4
  {
    hide Dims.KvDim, Dims.HeadSize;
  }

  ghost predicate LaidFrom(base: nat, sizes: seq<nat>, from: nat, offs: seq<int>) {
    from + |offs| <= |sizes| && forall i :: 0 <= i < |offs| ==> offs[i] == PlaceOf(base, sizes, from + i)
  }

  lemma LaidJoin(base: nat, sizes: seq<nat>, a: seq<int>, b: seq<int>, c: seq<int>)
    requires LaidFrom(base, sizes, 0, a) && LaidFrom(base, sizes, |a|, b) && LaidFrom(base, sizes, |a| + |b|, c)
    requires |a| + |b| + |c| == |sizes|
    ensures Laid(base, sizes, a + b + c)
  {
    hide PlaceOf;
    var o := a + b + c;
    forall i | 0 <= i < |sizes|
      ensures o[i] == PlaceOf(base, sizes, i)
    {
      assert o[i] == if i < |a| then a[i] else if i < |a| + |b| then b[i - |a|] else c[i - |a| - |b|];
    }
  }

  /** Laid pieces are at aligned addresses, inside the buffer, and disjoint. */
  lemma LaidIsSound(base: nat, cap: nat, sizes: seq<nat>, offs: seq<int>)
    requires Laid(base, sizes, offs) && Cursor(base, sizes) <= cap
    ensures forall i :: 0 <= i < |offs| ==> 0 <= offs[i] && (base + offs[i]) % 16 == 0 && offs[i] + sizes[i] <= cap
    ensures forall i, j :: 0 <= i < j < |offs| ==> offs[i] + sizes[i] <= offs[j]
  {
    forall i | 0 <= i < |offs|
      ensures 0 <= offs[i] && (base + offs[i]) % 16 == 0 && offs[i] + sizes[i] <= cap
    {
      PlacesDisjoint(base, sizes, i, i);
    }
    forall i, j | 0 <= i < j < |offs|
      ensures offs[i] + sizes[i] <= offs[j]
    {
      PlacesDisjoint(base, sizes, i, j);
    }
  }

  /**
    A caller who asks the sizing functions and aligns the cache buffer always
    gets every piece: the two cursors fit whatever the fast buffer's address.
   */
  lemma SizedBuffersFit(m: Dims, maxSeq: nat, int8Kv: bool, fastBase: nat, cacheBase: nat)
    requires m.Valid() && (int8Kv ==> cacheBase % 16 == 0)
    ensures Cursor(fastBase, m.FastSizes(maxSeq)) <= m.RuntimeBytes(maxSeq)
    ensures Cursor(cacheBase, m.CacheSizes(maxSeq, int8Kv)) <= m.KvBytes(maxSeq, int8Kv)
  {
    RuntimeBytesSuffice(m, maxSeq, fastBase);
    if int8Kv {
      Int8BytesSuffice(m, maxSeq, cacheBase);
    } else {
      FloatBytesSuffice(m, maxSeq, cacheBase);
    }
    hide *;
  }
}
