/**
  tq_model_open of core/src/tq_model.c: what it accepts and what it binds, as
  functions of the file; ModelOpenCode proves the loops against them.
 */
module ModelOpen {
  import opened Words
  import opened EtqFormat
  import Arena

  // ----------------------------------------------------------- what is parsed

  function Ascii(s: string): (r: Bytes)
    ensures |r| == |s|
  {
    seq(|s|, i requires 0 <= i < |s| => s[i] as int % 256)
  }

  lemma AsciiNulFree(s: string)
    requires forall i :: 0 <= i < |s| ==> '\0' < s[i] <= 'z'
    ensures NulFree(Ascii(s))
  {
  }

  /** A directory entry as the C structure holds it. */
  datatype Entry = Entry(name: Bytes, dtype: nat, ndim: nat, shape: seq<nat>, offset: nat, nbytes: nat)

  function EntryAt(buf: Bytes, at: nat): (e: Entry)
    requires at + ENTRY_BYTES <= |buf|
    ensures |e.name| == NAME_BYTES && |e.shape| == 4
  {
    Spans();
    var v := Unpack(buf[at + NAME_BYTES..at + ENTRY_BYTES], EntryFields());
    Entry(buf[at..at + NAME_BYTES], v[0], v[1], v[2..6], v[6], v[7])
  }

  function Int32(v: nat): int {
    if v >= 0x8000_0000 then v - U32 else v
  }

  /** The header, its dimensions as signed integers. */
  datatype Header = Header(
    magic: nat, version: nat, headerBytes: nat, arch: nat, count: nat, table: nat, fileBytes: nat,
    dim: int, hidden: int, nLayers: int, nHeads: int, nKvHeads: int, vocab: int, seqLen: int,
    qtype: nat, groupSize: nat, shared: nat)

  function HeaderOf(buf: Bytes): Header
    requires |buf| >= HEADER_BYTES
  {
    Spans();
    var h := Unpack(buf[..96], HeaderFields());
    var k := h[9..];
    Header(h[0], h[1], h[2], h[3], h[4], h[5], h[8],
           Int32(k[0]), Int32(k[1]), Int32(k[2]), Int32(k[3]), Int32(k[4]), Int32(k[5]), Int32(k[6]),
           k[7], k[8], k[9])
  }

  /** The checks on the header, in order. */
  function HeaderRc(h: Header, storeBytes: nat): int32 {
    if h.magic != MAGIC then ERR_MAGIC
    else if h.version != VERSION || h.headerBytes != HEADER_BYTES then ERR_VERSION
    else if h.arch != 0 then ERR_UNSUPPORTED
    else if h.qtype != 2 && h.qtype != 1 then ERR_UNSUPPORTED
    else if h.groupSize != GROUP_SIZE then ERR_UNSUPPORTED
    else if h.fileBytes > storeBytes then ERR_TRUNCATED
    else if h.dim <= 0 || h.nLayers <= 0 || h.nHeads <= 0 || h.nKvHeads <= 0 || h.vocab <= 0 || h.seqLen <= 0 || h.hidden <= 0
      then ERR_SHAPE
    else if h.dim % h.nHeads != 0 || h.nHeads % h.nKvHeads != 0 then ERR_SHAPE
    else if h.dim % 32 != 0 || h.hidden % 32 != 0 then ERR_SHAPE
    else OK
  }

  // -------------------------------------------------------------- what is wanted

  /** An expected dtype and shape: `cols` 0 for one dimension, both 0 for any. */
  datatype Want = Want(dtype: nat, rows: nat, cols: nat, required: bool)

  const GLOBALS: nat := 7
  const SUFFIXES: nat := 9

  function GlobalName(k: nat): Bytes
    requires k < GLOBALS
  {
    if k == 0 then Ascii("tok_emb") else if k == 1 then Ascii("rms_final") else if k == 2 then Ascii("cls")
    else if k == 3 then Ascii("tok.scores") else if k == 4 then Ascii("tok.offs")
    else if k == 5 then Ascii("tok.blob") else Ascii("tok.sorted")
  }

  function SuffixName(j: nat): Bytes
    requires j < SUFFIXES
  {
    if j == 0 then Ascii("rms_att") else if j == 1 then Ascii("rms_ffn") else if j == 2 then Ascii("wq")
    else if j == 3 then Ascii("wk") else if j == 4 then Ascii("wv") else if j == 5 then Ascii("wo")
    else if j == 6 then Ascii("w1") else if j == 7 then Ascii("w2") else Ascii("w3")
  }

  lemma NamesNulFree(k: nat, j: nat)
    requires k < GLOBALS && j < SUFFIXES
    ensures NulFree(GlobalName(k)) && NulFree(SuffixName(j))
    ensures |GlobalName(k)| < NAME_BYTES
  {
    hide NulFree, Ascii;
    AsciiNulFree("tok_emb");
    AsciiNulFree("rms_final");
    AsciiNulFree("cls");
    AsciiNulFree("tok.scores");
    AsciiNulFree("tok.offs");
    AsciiNulFree("tok.blob");
    AsciiNulFree("tok.sorted");
    AsciiNulFree("rms_att");
    AsciiNulFree("rms_ffn");
    AsciiNulFree("wq");
    AsciiNulFree("wk");
    AsciiNulFree("wv");
    AsciiNulFree("wo");
    AsciiNulFree("w1");
    AsciiNulFree("w2");
    AsciiNulFree("w3");
  }

  /** A header the checks let through. */
  predicate Sound(h: Header) {
    h.dim > 0 && h.hidden > 0 && h.nLayers > 0 && h.nHeads > 0 && h.nKvHeads > 0 && h.vocab > 0 && h.seqLen > 0
  }

  function KvDim(h: Header): nat
    requires Sound(h)
  {
    h.dim / h.nHeads * h.nKvHeads
  }

  function GlobalWant(h: Header, k: nat): Want
    requires Sound(h) && k < GLOBALS
  {
    if k == 0 then Want(h.qtype, h.vocab, h.dim, true)
    else if k == 1 then Want(0, h.dim, 0, true)
    else if k == 2 then Want(h.qtype, h.vocab, h.dim, h.shared == 0)
    else if k == 3 then Want(0, h.vocab, 0, false)
    else if k == 4 then Want(4, h.vocab + 1, 0, false)
    else if k == 5 then Want(3, 0, 0, false)
    else Want(4, h.vocab, 0, false)
  }

  function LayerWant(h: Header, j: nat): Want
    requires Sound(h) && j < SUFFIXES
  {
    if j == 0 || j == 1 then Want(0, h.dim, 0, true)
    else if j == 2 || j == 5 then Want(h.qtype, h.dim, h.dim, true)
    else if j == 3 || j == 4 then Want(h.qtype, KvDim(h), h.dim, true)
    else if j == 7 then Want(h.qtype, h.dim, h.hidden, true)
    else Want(h.qtype, h.hidden, h.dim, true)
  }

  predicate Matches(e: Entry, w: Want)
    requires |e.shape| == 4
  {
    e.dtype == w.dtype
    && if w.cols != 0 then e.ndim == 2 && e.shape[0] == w.rows && e.shape[1] == w.cols
       else w.rows != 0 ==> e.ndim == 1 && e.shape[0] == w.rows
  }

  // ------------------------------------------------------------------- the walk

  /** What has been bound so far; 0 is unbound. */
  datatype Slots = Slots(globals: seq<nat>, found: seq<bool>, blobBytes: nat, layers: seq<seq<nat>>) {
    ghost predicate For(h: Header) {
      |globals| == |found| == GLOBALS && |layers| == h.nLayers && forall l :: 0 <= l < |layers| ==> |layers[l]| == SUFFIXES
    }
  }

  /** The first global from `k` on not found yet whose name this is. */
  function FirstGlobal(found: seq<bool>, name: Bytes, k: nat): (r: nat)
    requires |found| == GLOBALS && k <= GLOBALS
    ensures k <= r <= GLOBALS
    decreases GLOBALS - k
  {
    if k == GLOBALS || (!found[k] && name == GlobalName(k)) then k else FirstGlobal(found, name, k + 1)
  }

  /** tq_match. */
  function MatchStep(h: Header, s: Slots, e: Entry): (r: (int32, Slots))
    requires Sound(h) && s.For(h) && |e.shape| == 4
    ensures r.1.For(h)
  {
    var k := FirstGlobal(s.found, UpToNul(e.name), 0);
    if k == GLOBALS then (OK, s)
    else if !Matches(e, GlobalWant(h, k)) then (ERR_SHAPE, s)
    else (OK, s.(globals := s.globals[k := e.offset], found := s.found[k := true],
                 blobBytes := if k == 5 then e.nbytes % U32 else s.blobBytes))
  }

  /** The layer number "lNNN." spells, in unsigned arithmetic; anything not of that form is no layer. */
  function LayerOf(name: Bytes): int
    requires |name| == NAME_BYTES
  {
    if name[0] != 108 || name[4] != 46 then -1
    else ((name[1] as int - 48) * 100 + (name[2] as int - 48) * 10 + (name[3] as int - 48)) % U32
  }

  function SuffixOf(s: Bytes, j: nat): (r: nat)
    requires j <= SUFFIXES
    ensures j <= r <= SUFFIXES
    decreases SUFFIXES - j
  {
    if j == SUFFIXES || s == SuffixName(j) then j else SuffixOf(s, j + 1)
  }

  function LayerStep(h: Header, s: Slots, e: Entry): (r: (int32, Slots))
    requires Sound(h) && s.For(h) && |e.shape| == 4 && |e.name| == NAME_BYTES
    ensures r.1.For(h)
  {
    var l := LayerOf(e.name);
    var j := SuffixOf(UpToNul(e.name[5..]), 0);
    if l < 0 || l >= h.nLayers || j == SUFFIXES then (OK, s)
    else if !Matches(e, LayerWant(h, j)) then (ERR_SHAPE, s)
    else
      var row: seq<nat> := s.layers[l][j := e.offset];
      (OK, s.(layers := s.layers[l := row]))
  }

  function EntryStep(h: Header, s: Slots, e: Entry): (r: (int32, Slots))
    requires Sound(h) && s.For(h) && |e.shape| == 4 && |e.name| == NAME_BYTES
    ensures r.1.For(h)
  {
    if (e.offset + e.nbytes) % U64 > h.fileBytes then (ERR_TRUNCATED, s)
    else if e.offset % ALIGN != 0 then (ERR_SHAPE, s)
    else
      var m := MatchStep(h, s, e);
      if m.0 != OK then m else LayerStep(h, m.1, e)
  }

  function Empty(h: Header): (s: Slots)
    requires Sound(h)
    ensures s.For(h)
  {
    Slots(seq(GLOBALS, _ => 0), seq(GLOBALS, _ => false), 0, seq(h.nLayers, _ => seq(SUFFIXES, _ => 0)))
  }

  /** The first `n` entries; the first bad one stops the walk. */
  function Walk(h: Header, buf: Bytes, n: nat): (r: (int32, Slots))
    requires Sound(h) && (n > 0 ==> h.table + ENTRY_BYTES * n <= |buf|)
    ensures r.1.For(h)
  {
    if n == 0 then (OK, Empty(h))
    else
      var w := Walk(h, buf, n - 1);
      if w.0 != OK then w else EntryStep(h, w.1, EntryAt(buf, h.table + ENTRY_BYTES * (n - 1)))
  }

  /** A bad entry decides the walk. */
  lemma {:induction false} WalkStops(h: Header, data: Bytes, n: nat, m: nat)
    requires Sound(h) && 0 < n <= m && h.table + ENTRY_BYTES * m <= |data| && Walk(h, data, n).0 != OK
    ensures Walk(h, data, m) == Walk(h, data, n)
    decreases m
  {
    hide EntryStep, EntryAt, Sound;
    if n < m {
      WalkStops(h, data, n, m - 1);
    }
  }

  predicate AllBound(s: Slots) {
    forall l, j :: 0 <= l < |s.layers| && 0 <= j < |s.layers[l]| ==> s.layers[l][j] != 0
  }

  function Finish(h: Header, s: Slots): (int32, Slots)
    requires Sound(h) && s.For(h)
  {
    if exists k :: 0 <= k < GLOBALS && GlobalWant(h, k).required && !s.found[k] then (ERR_MISSING, s)
    else
      var t := if h.shared != 0 then s.(globals := s.globals[2 := s.globals[0]]) else s;
      if AllBound(t) then (OK, t) else (ERR_MISSING, t)
  }

  const LAYER_OFFSETS: nat := 72

  /** The directory is read this many entries at a time. */
  const CHUNK: nat := 32

  /** The directory lies in the file. */
  predicate Inside(h: Header, bytes: nat) {
    h.count > 0 ==> h.table + ENTRY_BYTES * h.count <= bytes
  }

  /** The entries seen: all of them, or the whole chunks that lie in the file. */
  function Readable(h: Header, bytes: nat): (n: nat)
    ensures n <= h.count && (n > 0 ==> h.table + ENTRY_BYTES * n <= bytes)
  {
    if Inside(h, bytes) then h.count
    else if h.table > bytes then 0
    else (bytes - h.table) / (ENTRY_BYTES * CHUNK) * CHUNK
  }

  /** The status of reading the directory. */
  function DirectoryRc(h: Header, buf: Bytes): int32
    requires Sound(h)
  {
    var w := Walk(h, buf, Readable(h, |buf|));
    if w.0 == OK && Readable(h, |buf|) < h.count then ERR_TRUNCATED else w.0
  }

  /** A status, or the model: its header and where everything is. */
  datatype Outcome = Refused(rc: int32) | Opened(h: Header, s: Slots)

  /** tq_model_open on a file that can be viewed anywhere, with an arena for the layer table. */
  function Open(buf: Bytes, base: nat, cap: nat): (r: Outcome)
    ensures r.Opened? ==> Sound(r.h) && r.s.For(r.h)
  {
    if |buf| < HEADER_BYTES then Refused(ERR_TRUNCATED)
    else
      var h := HeaderOf(buf);
      if HeaderRc(h, |buf|) != OK then Refused(HeaderRc(h, |buf|))
      else if Arena.Spot(base, 0) + LAYER_OFFSETS * h.nLayers > cap then Refused(ERR_NOMEM)
      else if DirectoryRc(h, buf) != OK then Refused(DirectoryRc(h, buf))
      else
        var f := Finish(h, Walk(h, buf, h.count).1);
        if f.0 != OK then Refused(f.0) else Opened(h, f.1)
  }

  /** A directory in the file is read to its end. */
  lemma ReadAll(h: Header, buf: Bytes)
    requires Sound(h) && Inside(h, |buf|)
    ensures DirectoryRc(h, buf) == Walk(h, buf, h.count).0
  {
    hide Walk;
  }

  /** A chunk is among the entries seen exactly when it lies in the file; the first that does not ends them. */
  lemma NextReadable(h: Header, bytes: nat, idx: nat, take: nat)
    requires idx < h.count && idx % CHUNK == 0 && take == (if h.count - idx > CHUNK then CHUNK else h.count - idx)
    requires idx > 0 ==> h.table + ENTRY_BYTES * idx <= bytes
    ensures if h.table + ENTRY_BYTES * (idx + take) <= bytes then idx + take <= Readable(h, bytes)
            else Readable(h, bytes) == idx
  {
    var all, k := h.count, idx / CHUNK;
    if Inside(h, bytes) {
    } else if h.table <= bytes {
      var q := (bytes - h.table) / (ENTRY_BYTES * CHUNK);
      assert q * 2048 <= bytes - h.table < q * 2048 + 2048;
      if h.table + ENTRY_BYTES * (idx + take) <= bytes {
        assert take == CHUNK;
        assert k + 1 <= q;
      } else if idx > 0 {
        assert k <= q;
      }
    }
  }
}
