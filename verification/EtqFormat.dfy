/**
  The .etq container of tools/etq/format.py, byte for byte: little-endian
  records, a directory of 64-byte entries, payloads on 64-byte boundaries.
 */
module EtqFormat {
  import opened Unicode
  import opened Words

  type Bytes = seq<byte>

  const MAGIC: nat := 0x31515445
  const VERSION: nat := 1
  const HEADER_BYTES: nat := 256
  const ALIGN: nat := 64
  const NAME_BYTES: nat := 24
  const GROUP_SIZE: nat := 32
  const ENTRY_BYTES: nat := 64

  const DT_F32: nat := 0
  const DT_Q8_0: nat := 1
  const DT_Q4_0: nat := 2
  const DT_U8: nat := 3
  const DT_U32: nat := 4

  // ------------------------------------------------- little-endian records

  function Le(n: nat, width: nat): (r: Bytes)
    ensures |r| == width
  {
    if width == 0 then [] else [n % 256] + Le(n / 256, width - 1)
  }

  function UnLe(s: Bytes): nat {
    if s == [] then 0 else s[0] + 256 * UnLe(s[1..])
  }

  /** What fits in `width` bytes. */
  function Range(width: nat): (r: nat)
    ensures r >= 1
  {
    if width == 0 then 1 else 256 * Range(width - 1)
  }

  lemma {:induction false} LeRoundTrip(n: nat, width: nat)
    requires n < Range(width)
    ensures UnLe(Le(n, width)) == n
  {
    if width > 0 {
      LeRoundTrip(n / 256, width - 1);
      assert Le(n, width)[1..] == Le(n / 256, width - 1);
    }
  }

  /** struct.pack: one field after the other. */
  function Pack(vals: seq<nat>, widths: seq<nat>): (r: Bytes)
    requires |vals| == |widths|
    ensures |r| == Span(widths)
  {
    if vals == [] then [] else Le(vals[0], widths[0]) + Pack(vals[1..], widths[1..])
  }

  function Span(widths: seq<nat>): nat {
    if widths == [] then 0 else widths[0] + Span(widths[1..])
  }

  /** struct.unpack. */
  function Unpack(s: Bytes, widths: seq<nat>): (r: seq<nat>)
    requires |s| == Span(widths)
    ensures |r| == |widths|
  {
    if widths == [] then [] else [UnLe(s[..widths[0]])] + Unpack(s[widths[0]..], widths[1..])
  }

  predicate Fits(vals: seq<nat>, widths: seq<nat>) {
    |vals| == |widths| && forall i :: 0 <= i < |vals| ==> vals[i] < Range(widths[i])
  }

  lemma {:induction false} PackRoundTrip(vals: seq<nat>, widths: seq<nat>)
    requires Fits(vals, widths)
    ensures Unpack(Pack(vals, widths), widths) == vals
  {
    if vals != [] {
      var head, tail := Le(vals[0], widths[0]), Pack(vals[1..], widths[1..]);
      LeRoundTrip(vals[0], widths[0]);
      PackRoundTrip(vals[1..], widths[1..]);
      assert (head + tail)[..widths[0]] == head && (head + tail)[widths[0]..] == tail;
      assert vals == [vals[0]] + vals[1..];
    }
  }

  function Fours(k: nat): (r: seq<nat>)
    ensures |r| == k
  {
    seq(k, _ => 4)
  }

  /** "<8I Q 7i 3I 2f 2I". */
  function HeaderFields(): (r: seq<nat>)
    ensures |r| == 23
  {
    Fours(8) + [8] + Fours(14)
  }

  /** The numbers of "<24s 2I 4I 2Q". */
  function EntryFields(): (r: seq<nat>)
    ensures |r| == 8
  {
    Fours(6) + [8, 8]
  }

  lemma Ranges()
    ensures Range(4) == U32 && Range(8) == U64
  {
    assert Range(2) == 0x1_0000;
    assert Range(4) == 256 * (256 * Range(2));
    assert Range(6) == 256 * (256 * Range(4));
    assert Range(8) == 256 * (256 * Range(6));
  }

  lemma {:induction false} SpanConcat(a: seq<nat>, b: seq<nat>)
    ensures Span(a + b) == Span(a) + Span(b)
  {
    if a == [] {
      assert a + b == b;
    } else {
      SpanConcat(a[1..], b);
      assert (a + b)[1..] == a[1..] + b;
    }
  }

  lemma {:induction false} SpanFours(k: nat)
    ensures Span(Fours(k)) == 4 * k
  {
    if k > 0 {
      SpanFours(k - 1);
      assert Fours(k)[1..] == Fours(k - 1);
    }
  }

  lemma Spans()
    ensures Span(HeaderFields()) == 96 && Span(EntryFields()) == 40
  {
    hide Fours;
    SpanFours(8);
    SpanFours(14);
    SpanFours(6);
    SpanConcat(Fours(8) + [8], Fours(14));
    SpanConcat(Fours(8), [8]);
    SpanConcat(Fours(6), [8, 8]);
    assert Span([8]) == 8 && [8, 8][1..] == [8];
  }

  // ------------------------------------------------------- what a file holds

  /** The float fields as their bit patterns. */
  datatype Config = Config(
    dim: nat, hidden: nat, nLayers: nat, nHeads: nat, nKvHeads: nat, vocab: nat, seqLen: nat,
    qtype: nat, shared: nat, theta: nat, eps: nat, bos: nat, eos: nat)

  datatype Tensor = Tensor(name: Bytes, dtype: nat, shape: seq<nat>, payload: Bytes) {
    /** What constructing one insists on. */
    predicate Valid() {
      |name| < NAME_BYTES && |shape| <= 4
    }
  }

  predicate NulFree(s: Bytes) {
    forall i :: 0 <= i < |s| ==> s[i] != 0
  }

  function AlignUp(v: nat): (r: nat)
    ensures v <= r < v + ALIGN && r % ALIGN == 0
  {
    AlignBounds(v + ALIGN - 1);
    (v + ALIGN - 1) / ALIGN * ALIGN
  }

  lemma AlignBounds(v: nat)
    ensures v - ALIGN < v / ALIGN * ALIGN <= v && v / ALIGN * ALIGN % ALIGN == 0
  {
  }

  function Zeros(n: nat): (r: Bytes)
    ensures |r| == n
  {
    seq(n, _ => 0)
  }

  function DataAt(count: nat): nat {
    AlignUp(HEADER_BYTES + ENTRY_BYTES * count)
  }

  /** Where payload `i` starts; for i == |ts|, where the file ends. */
  function PayloadAt(ts: seq<Tensor>, i: nat): nat
    requires i <= |ts|
  {
    if i == 0 then DataAt(|ts|) else AlignUp(PayloadAt(ts, i - 1) + |ts[i - 1].payload|)
  }

  /** magic, version, header size, architecture, tensors, where the directory and the data start, flags. */
  function TopVals(count: nat, dataAt: nat): (r: seq<nat>)
    ensures |r| == 8
  {
    [MAGIC, VERSION, HEADER_BYTES, 0, count, HEADER_BYTES, dataAt, 0]
  }

  function ConfigVals(c: Config): (r: seq<nat>)
    ensures |r| == 14
  {
    [c.dim, c.hidden, c.nLayers, c.nHeads, c.nKvHeads, c.vocab, c.seqLen,
     c.qtype, GROUP_SIZE, c.shared, c.theta, c.eps, c.bos, c.eos]
  }

  function HeaderVals(c: Config, count: nat, dataAt: nat, total: nat): (r: seq<nat>)
    ensures |r| == 23
  {
    TopVals(count, dataAt) + [total] + ConfigVals(c)
  }

  function ConfigOf(k: seq<nat>): Config
    requires |k| == 14
  {
    Config(k[0], k[1], k[2], k[3], k[4], k[5], k[6], k[7], k[9], k[10], k[11], k[12], k[13])
  }

  lemma ConfigRoundTrip(c: Config)
    ensures ConfigOf(ConfigVals(c)) == c && ConfigVals(c)[8] == GROUP_SIZE
  {
  }

  function Shape4(shape: seq<nat>): (r: seq<nat>)
    requires |shape| <= 4
    ensures |r| == 4
  {
    shape + seq(4 - |shape|, _ => 0)
  }

  function EntryVals(t: Tensor, off: nat): (r: seq<nat>)
    requires t.Valid()
    ensures |r| == 8
  {
    [t.dtype, |t.shape|] + Shape4(t.shape) + [off, |t.payload|]
  }

  function EntryRecord(t: Tensor, off: nat): (r: Bytes)
    requires t.Valid()
    ensures |r| == ENTRY_BYTES
  {
    Spans();
    t.name + Zeros(NAME_BYTES - |t.name|) + Pack(EntryVals(t, off), EntryFields())
  }

  function HeaderRecord(c: Config, ts: seq<Tensor>): (r: Bytes)
    ensures |r| == 96
  {
    Spans();
    Pack(HeaderVals(c, |ts|, DataAt(|ts|), PayloadAt(ts, |ts|)), HeaderFields())
  }

  /** The dimensions go into signed fields. */
  predicate SignedDims(c: Config) {
    c.dim < 0x8000_0000 && c.hidden < 0x8000_0000 && c.nLayers < 0x8000_0000 && c.nHeads < 0x8000_0000
    && c.nKvHeads < 0x8000_0000 && c.vocab < 0x8000_0000 && c.seqLen < 0x8000_0000
  }

  /** Every number fits its field, or struct.pack raises. */
  predicate Packable(c: Config, ts: seq<Tensor>) {
    SignedDims(c) && (forall i :: 0 <= i < |ts| ==> ts[i].Valid())
    && Fits(HeaderVals(c, |ts|, DataAt(|ts|), PayloadAt(ts, |ts|)), HeaderFields())
    && forall i :: 0 <= i < |ts| ==> Fits(EntryVals(ts[i], PayloadAt(ts, i)), EntryFields())
  }

  predicate Holds(buf: Bytes, at: nat, part: Bytes) {
    at + |part| <= |buf| && buf[at..at + |part|] == part
  }

  ghost predicate DirectoryIn(buf: Bytes, ts: seq<Tensor>, n: nat)
    requires n <= |ts| && forall i :: 0 <= i < |ts| ==> ts[i].Valid()
  {
    forall i :: 0 <= i < n ==> Holds(buf, HEADER_BYTES + ENTRY_BYTES * i, EntryRecord(ts[i], PayloadAt(ts, i)))
  }

  ghost predicate PayloadsIn(buf: Bytes, ts: seq<Tensor>, n: nat)
    requires n <= |ts|
  {
    forall i :: 0 <= i < n ==> Holds(buf, PayloadAt(ts, i), ts[i].payload)
  }

  /** A file of these tensors: header, directory, payloads, nothing past the last. */
  ghost predicate Layout(c: Config, ts: seq<Tensor>, buf: Bytes) {
    Packable(c, ts) && |buf| == PayloadAt(ts, |ts|)
    && Holds(buf, 0, HeaderRecord(c, ts)) && DirectoryIn(buf, ts, |ts|) && PayloadsIn(buf, ts, |ts|)
  }

  // ------------------------------------------------------------ the placement

  lemma {:induction false} PayloadsDisjoint(ts: seq<Tensor>, i: nat, j: nat)
    requires i <= j <= |ts|
    ensures PayloadAt(ts, j) % ALIGN == 0 && PayloadAt(ts, j) >= HEADER_BYTES + ENTRY_BYTES * |ts|
    ensures i < j ==> PayloadAt(ts, i) + |ts[i].payload| <= PayloadAt(ts, j)
  {
    hide AlignUp;
    if j > 0 {
      PayloadsDisjoint(ts, if i < j then i else 0, j - 1);
    }
  }

  // --------------------------------------------------------------- the writer

  lemma HoldsMore(buf: Bytes, more: Bytes, at: nat, part: Bytes)
    requires Holds(buf, at, part)
    ensures Holds(buf + more, at, part)
  {
    assert (buf + more)[at..at + |part|] == buf[at..at + |part|];
  }

  lemma HoldsLast(buf: Bytes, part: Bytes)
    ensures Holds(buf + part, |buf|, part)
  {
  }

  lemma PayloadsMore(buf: Bytes, more: Bytes, ts: seq<Tensor>, n: nat)
    requires n <= |ts| && PayloadsIn(buf, ts, n)
    ensures PayloadsIn(buf + more, ts, n)
  {
    hide Holds;
    forall i | 0 <= i < n
      ensures Holds(buf + more, PayloadAt(ts, i), ts[i].payload)
    {
      HoldsMore(buf, more, PayloadAt(ts, i), ts[i].payload);
    }
  }

  lemma DirectoryMore(buf: Bytes, more: Bytes, ts: seq<Tensor>, n: nat)
    requires n <= |ts| && (forall i :: 0 <= i < |ts| ==> ts[i].Valid()) && DirectoryIn(buf, ts, n)
    ensures DirectoryIn(buf + more, ts, n)
  {
    hide Holds, EntryRecord, PayloadAt, Tensor.Valid;
    forall i | 0 <= i < n
      ensures Holds(buf + more, HEADER_BYTES + ENTRY_BYTES * i, EntryRecord(ts[i], PayloadAt(ts, i)))
    {
      HoldsMore(buf, more, HEADER_BYTES + ENTRY_BYTES * i, EntryRecord(ts[i], PayloadAt(ts, i)));
    }
  }

  lemma HoldsPrefix(buf: Bytes, longer: Bytes, at: nat, part: Bytes)
    requires Holds(buf, at, part) && buf <= longer
    ensures Holds(longer, at, part)
  {
    assert longer == buf + longer[|buf|..];
    HoldsMore(buf, longer[|buf|..], at, part);
  }

  lemma DirectoryPrefix(buf: Bytes, longer: Bytes, ts: seq<Tensor>, n: nat)
    requires n <= |ts| && (forall i :: 0 <= i < |ts| ==> ts[i].Valid()) && DirectoryIn(buf, ts, n) && buf <= longer
    ensures DirectoryIn(longer, ts, n)
  {
    assert longer == buf + longer[|buf|..];
    DirectoryMore(buf, longer[|buf|..], ts, n);
  }

  lemma PackableMeans(c: Config, ts: seq<Tensor>)
    requires Packable(c, ts)
    ensures forall i :: 0 <= i < |ts| ==> ts[i].Valid()
  {
  }

  lemma PayloadFirst(ts: seq<Tensor>)
    ensures PayloadAt(ts, 0) == DataAt(|ts|) >= HEADER_BYTES + ENTRY_BYTES * |ts|
  {
  }

  lemma PayloadNext(ts: seq<Tensor>, i: nat)
    requires i < |ts|
    ensures PayloadAt(ts, i + 1) == AlignUp(PayloadAt(ts, i) + |ts[i].payload|) >= PayloadAt(ts, i) + |ts[i].payload|
  {
  }

  datatype Result<T> = Ok(value: T) | Err(why: string)

  /** dtype_nbytes: a broken block or a bad dtype raises. */
  function DtypeBytes(dtype: nat, n: nat): (r: Result<nat>) {
    if dtype == DT_F32 || dtype == DT_U32 then Ok(n * 4)
    else if dtype == DT_U8 then Ok(n)
    else if dtype == DT_Q8_0 then if n % GROUP_SIZE != 0 then Err("blocks") else Ok(n / GROUP_SIZE * 34)
    else if dtype == DT_Q4_0 then if n % GROUP_SIZE != 0 then Err("blocks") else Ok(n / GROUP_SIZE * 18)
    else Err("dtype")
  }

  function Product(shape: seq<nat>): nat {
    if shape == [] then 1 else Product(shape[..|shape| - 1]) * shape[|shape| - 1]
  }

  /** What Writer.add accepts. */
  predicate Addable(t: Tensor) {
    t.Valid() && DtypeBytes(t.dtype, Product(t.shape)) == Ok(|t.payload|)
  }

  class Writer {
    const cfg: Config
    var tensors: seq<Tensor>

    constructor (cfg: Config)
      ensures this.cfg == cfg && tensors == []
    {
      this.cfg := cfg;
      tensors := [];
    }

    method Add(name: Bytes, dtype: nat, shape: seq<nat>, payload: Bytes) returns (ok: bool)
      modifies this
      ensures ok == Addable(Tensor(name, dtype, shape, payload))
      ensures tensors == if ok then old(tensors) + [Tensor(name, dtype, shape, payload)] else old(tensors)
    {
      var n := 1;
      for k := 0 to |shape|
        invariant n == Product(shape[..k])
      {
        assert shape[..k + 1][..k] == shape[..k];
        n := n * shape[k];
      }
      assert shape[..|shape|] == shape;
      var want := DtypeBytes(dtype, n);
      if want.Err? || |payload| != want.value || |name| >= NAME_BYTES || |shape| > 4 {
        return false;
      }
      tensors := tensors + [Tensor(name, dtype, shape, payload)];
      return true;
    }

    /** _pad_to. */
    static function PadTo(fp: Bytes, target: nat): (r: Bytes)
      requires |fp| <= target
      ensures |r| == target && fp <= r
    {
      fp + Zeros(target - |fp|)
    }

    /** The directory's records, with the offsets it promises. */
    method Records() returns (entries: seq<Bytes>, total: nat)
      requires Packable(cfg, tensors)
      ensures total == PayloadAt(tensors, |tensors|) && |entries| == |tensors|
      ensures forall i :: 0 <= i < |tensors| ==> entries[i] == EntryRecord(tensors[i], PayloadAt(tensors, i))
    {
      hide *;
      PackableMeans(cfg, tensors);
      PayloadFirst(tensors);
      var off := DataAt(|tensors|);
      entries := [];
      for i := 0 to |tensors|
        invariant |entries| == i && off == PayloadAt(tensors, i)
        invariant forall k :: 0 <= k < i ==> entries[k] == EntryRecord(tensors[k], PayloadAt(tensors, k))
      {
        PayloadNext(tensors, i);
        entries := entries + [EntryRecord(tensors[i], off)];
        off := AlignUp(off + |tensors[i].payload|);
      }
      total := off;
    }

    /** Writer.write: the whole file. */
    method Write() returns (r: Result<Bytes>)
      ensures r.Ok? <==> Packable(cfg, tensors)
      ensures r.Ok? ==> Layout(cfg, tensors, r.value)
    {
      if !Packable(cfg, tensors) {
        return Err("struct");
      }
      PackableMeans(cfg, tensors);
      PayloadFirst(tensors);
      var header := HeaderRecord(cfg, tensors);
      hide HeaderRecord, EntryRecord, PayloadAt, Packable, AlignUp, DirectoryIn, PayloadsIn, Holds, Tensor.Valid;
      var entries, total := Records();
      var fp := header + Zeros(HEADER_BYTES - 96);
      HoldsLast([], header);
      HoldsPrefix([] + header, fp, 0, header);
      ghost var head := fp;
      fp := WriteDirectory(fp, entries);
      ghost var directory := fp;
      fp := WritePayloads(fp, total);
      HoldsPrefix(head, fp, 0, header);
      DirectoryPrefix(directory, fp, tensors, |tensors|);
      return Ok(fp);
    }

    method WriteDirectory(head: Bytes, entries: seq<Bytes>) returns (fp: Bytes)
      requires Packable(cfg, tensors) && |head| == HEADER_BYTES && |entries| == |tensors|
      requires forall i :: 0 <= i < |tensors| ==> entries[i] == EntryRecord(tensors[i], PayloadAt(tensors, i))
      ensures head <= fp && |fp| == DataAt(|tensors|) && DirectoryIn(fp, tensors, |tensors|)
    {
      hide EntryRecord, PayloadAt, Tensor.Valid;
      fp := head;
      for i := 0 to |entries|
        invariant head <= fp && |fp| == HEADER_BYTES + ENTRY_BYTES * i
        invariant DirectoryIn(fp, tensors, i)
      {
        DirectoryMore(fp, entries[i], tensors, i);
        HoldsLast(fp, entries[i]);
        fp := fp + entries[i];
      }
      DirectoryMore(fp, Zeros(DataAt(|tensors|) - |fp|), tensors, |tensors|);
      fp := PadTo(fp, DataAt(|tensors|));
    }

    method WritePayloads(head: Bytes, total: nat) returns (fp: Bytes)
      requires |head| == PayloadAt(tensors, 0) && total == PayloadAt(tensors, |tensors|)
      ensures head <= fp && |fp| == total && PayloadsIn(fp, tensors, |tensors|)
    {
      hide Holds, PayloadAt, AlignUp;
      fp := head;
      for i := 0 to |tensors|
        invariant head <= fp && |fp| <= PayloadAt(tensors, i)
        invariant PayloadsIn(fp, tensors, i)
      {
        PayloadNext(tensors, i);
        var at := PayloadAt(tensors, i);
        PayloadsMore(fp, Zeros(at - |fp|), tensors, i);
        fp := PadTo(fp, at);
        PayloadsMore(fp, tensors[i].payload, tensors, i);
        HoldsLast(fp, tensors[i].payload);
        fp := fp + tensors[i].payload;
      }
      PayloadsMore(fp, Zeros(total - |fp|), tensors, |tensors|);
      fp := PadTo(fp, total);
    }
  }

  // --------------------------------------------------------------- the reader

  /** e[0].split(NUL)[0]. */
  function UpToNul(s: Bytes): (r: Bytes)
    ensures |r| <= |s|
  {
    if s == [] || s[0] == 0 then [] else [s[0]] + UpToNul(s[1..])
  }

  /** buf[off:off + n], which clamps. */
  function Slice(buf: Bytes, off: nat, n: nat): Bytes {
    if off >= |buf| then []
    else if off + n > |buf| then buf[off..]
    else buf[off..off + n]
  }

  /** A name as str.encode gives it, without NUL. */
  predicate NameBytes(s: Bytes) {
    NulFree(s) && Utf8(s)
  }

  /** One directory entry and its payload. */
  function ReadEntry(buf: Bytes, at: nat): Result<Tensor> {
    if at + ENTRY_BYTES > |buf| then Err("struct")
    else
      Spans();
      var name := UpToNul(buf[at..at + NAME_BYTES]);
      var e := Unpack(buf[at + NAME_BYTES..at + ENTRY_BYTES], EntryFields());
      if !Utf8(name) then Err("utf-8")
      else if |name| >= NAME_BYTES then Err("name")
      else if e[1] > 4 then Err("rank")
      else Ok(Tensor(name, e[0], e[2..2 + e[1]], Slice(buf, e[6], e[7])))
  }

  function ReadEntries(buf: Bytes, table: nat, n: nat): (r: Result<seq<Tensor>>)
    ensures r.Ok? ==> |r.value| == n
  {
    if n == 0 then Ok([])
    else
      var init := ReadEntries(buf, table, n - 1);
      if init.Err? then init
      else
        var t := ReadEntry(buf, table + ENTRY_BYTES * (n - 1));
        if t.Err? then Err(t.why) else Ok(init.value + [t.value])
  }

  /** The dictionary: a name added again replaces. */
  function ByName(ts: seq<Tensor>): map<Bytes, Tensor> {
    if ts == [] then map[] else ByName(ts[..|ts| - 1])[ts[|ts| - 1].name := ts[|ts| - 1]]
  }

  function Names(ts: seq<Tensor>): (r: seq<Bytes>)
    ensures |r| == |ts|
  {
    seq(|ts|, i requires 0 <= i < |ts| => ts[i].name)
  }

  /** What a reader object holds. */
  datatype File = File(
    cfg: Config, arch: nat, flags: nat, dataAt: nat, fileBytes: nat, groupSize: nat,
    order: seq<Bytes>, tensors: map<Bytes, Tensor>)

  function FileOf(h: seq<nat>, ts: seq<Tensor>): File
    requires |h| == 23
  {
    File(ConfigOf(h[9..]), h[3], h[7], h[6], h[8], h[9..][8], Names(ts), ByName(ts))
  }

  function ReadFile(buf: Bytes): Result<File> {
    if |buf| < 96 then Err("struct")
    else
      Spans();
      var h := Unpack(buf[..96], HeaderFields());
      if h[0] != MAGIC then Err("magic")
      else if h[1] != VERSION then Err("version")
      else
        var ts := ReadEntries(buf, h[5], h[4]);
        if ts.Err? then Err(ts.why) else Ok(FileOf(h, ts.value))
  }

  /** Reader's constructor: fills `order` and `tensors` entry by entry. */
  method Read(buf: Bytes) returns (r: Result<File>)
    ensures r == ReadFile(buf)
  {
    hide Unpack, ReadEntry, ReadEntries, ConfigOf, Names, ByName, HeaderFields, Span;
    if |buf| < 96 {
      return Err("struct");
    }
    Spans();
    var h := Unpack(buf[..96], HeaderFields());
    if h[0] != MAGIC {
      return Err("magic");
    }
    if h[1] != VERSION {
      return Err("version");
    }
    var d := ReadDirectory(buf, h[5], h[4]);
    if d.Err? {
      return Err(d.why);
    }
    return Ok(File(ConfigOf(h[9..]), h[3], h[7], h[6], h[8], h[9..][8], d.value.0, d.value.1));
  }

  /** The loop over the directory: `order` and `tensors`, entry by entry. */
  method ReadDirectory(buf: Bytes, table: nat, count: nat) returns (r: Result<(seq<Bytes>, map<Bytes, Tensor>)>)
    ensures var ts := ReadEntries(buf, table, count);
      r == if ts.Err? then Err(ts.why) else Ok((Names(ts.value), ByName(ts.value)))
  {
    hide *;
    var order: seq<Bytes>, tensors: map<Bytes, Tensor> := [], map[];
    ghost var ts: seq<Tensor> := [];
    NothingRead(buf, table);
    for i := 0 to count
      invariant ReadEntries(buf, table, i) == Ok(ts)
      invariant order == Names(ts) && tensors == ByName(ts)
    {
      var t := ReadEntry(buf, table + ENTRY_BYTES * i);
      EntriesNext(buf, table, i);
      if t.Err? {
        EntriesFail(buf, table, i, count);
        return Err(t.why);
      }
      NamesNext(ts, t.value);
      ts := ts + [t.value];
      order := order + [t.value.name];
      tensors := tensors[t.value.name := t.value];
    }
    return Ok((order, tensors));
  }

  lemma NothingRead(buf: Bytes, table: nat)
    ensures ReadEntries(buf, table, 0) == Ok([]) && Names([]) == [] && ByName([]) == map[]
  {
  }

  lemma EntriesNext(buf: Bytes, table: nat, i: nat)
    requires ReadEntries(buf, table, i).Ok?
    ensures var t := ReadEntry(buf, table + ENTRY_BYTES * i);
      ReadEntries(buf, table, i + 1) == if t.Err? then Err(t.why) else Ok(ReadEntries(buf, table, i).value + [t.value])
  {
    hide ReadEntry;
  }

  lemma NamesNext(ts: seq<Tensor>, t: Tensor)
    ensures Names(ts + [t]) == Names(ts) + [t.name] && ByName(ts + [t]) == ByName(ts)[t.name := t]
  {
    assert (ts + [t])[..|ts|] == ts;
  }

  /** The first bad entry decides. */
  lemma {:induction false} EntriesFail(buf: Bytes, table: nat, i: nat, n: nat)
    requires i < n && ReadEntries(buf, table, i).Ok? && ReadEntry(buf, table + ENTRY_BYTES * i).Err?
    ensures ReadEntries(buf, table, n) == Err(ReadEntry(buf, table + ENTRY_BYTES * i).why)
    decreases n
  {
    hide ReadEntry;
    if i < n - 1 {
      EntriesFail(buf, table, i, n - 1);
    }
  }

  // ------------------------------------------------------------ the round trip

  lemma {:induction false} UpToNulPadded(name: Bytes, k: nat)
    requires NulFree(name) && k > 0
    ensures UpToNul(name + Zeros(k)) == name
  {
    if name == [] {
      assert name + Zeros(k) == Zeros(k);
    } else {
      UpToNulPadded(name[1..], k);
      assert (name + Zeros(k))[1..] == name[1..] + Zeros(k);
      assert name == [name[0]] + name[1..];
    }
  }

  lemma HeldSlice(buf: Bytes, at: nat, a: Bytes, b: Bytes)
    requires Holds(buf, at, a + b)
    ensures buf[at..at + |a|] == a && buf[at + |a|..at + |a| + |b|] == b
  {
    var whole := buf[at..at + |a| + |b|];
    assert whole == a + b;
    assert whole[..|a|] == a && whole[|a|..] == b;
  }

  lemma EntryIndices(t: Tensor, off: nat)
    requires t.Valid()
    ensures var e := EntryVals(t, off);
      e[0] == t.dtype && e[1] == |t.shape| && e[2..2 + |t.shape|] == t.shape && e[6] == off && e[7] == |t.payload|
  {
    var e := EntryVals(t, off);
    assert e[2..6] == Shape4(t.shape);
    assert e[2..2 + |t.shape|] == Shape4(t.shape)[..|t.shape|];
  }

  lemma EntryNumbers(t: Tensor, off: nat)
    requires t.Valid() && Fits(EntryVals(t, off), EntryFields())
    ensures |Pack(EntryVals(t, off), EntryFields())| == 40 == Span(EntryFields())
    ensures Unpack(Pack(EntryVals(t, off), EntryFields()), EntryFields()) == EntryVals(t, off)
  {
    hide Pack, Unpack, EntryFields, Fits, EntryVals, Span;
    Spans();
    PackRoundTrip(EntryVals(t, off), EntryFields());
  }

  lemma EntryRoundTrip(buf: Bytes, at: nat, t: Tensor, off: nat)
    requires t.Valid() && NameBytes(t.name) && Fits(EntryVals(t, off), EntryFields())
    requires Holds(buf, at, EntryRecord(t, off)) && Holds(buf, off, t.payload)
    ensures ReadEntry(buf, at) == Ok(t)
  {
    var pad := Zeros(NAME_BYTES - |t.name|);
    var numbers := Pack(EntryVals(t, off), EntryFields());
    EntryNumbers(t, off);
    EntryIndices(t, off);
    UpToNulPadded(t.name, NAME_BYTES - |t.name|);
    HeldSlice(buf, at, t.name + pad, numbers);
    SliceHeld(buf, off, t.payload);
    hide Pack, Unpack, EntryFields, Fits, EntryVals, UpToNul, Utf8, Slice, Holds, NulFree;
  }

  lemma SliceHeld(buf: Bytes, off: nat, part: Bytes)
    requires Holds(buf, off, part)
    ensures Slice(buf, off, |part|) == part
  {
    if off >= |buf| {
      assert part == [];
    }
  }

  lemma DirectoryAt(buf: Bytes, ts: seq<Tensor>, n: nat, i: nat)
    requires i < n <= |ts| && (forall k :: 0 <= k < |ts| ==> ts[k].Valid()) && DirectoryIn(buf, ts, n)
    ensures Holds(buf, HEADER_BYTES + ENTRY_BYTES * i, EntryRecord(ts[i], PayloadAt(ts, i)))
  {
    hide Holds, EntryRecord, PayloadAt;
  }

  lemma PayloadsAt(buf: Bytes, ts: seq<Tensor>, n: nat, i: nat)
    requires i < n <= |ts| && PayloadsIn(buf, ts, n)
    ensures Holds(buf, PayloadAt(ts, i), ts[i].payload)
  {
    hide Holds, PayloadAt;
  }

  lemma PackableAt(c: Config, ts: seq<Tensor>, i: nat)
    requires Packable(c, ts) && i < |ts|
    ensures ts[i].Valid() && Fits(EntryVals(ts[i], PayloadAt(ts, i)), EntryFields())
  {
    hide Fits, PayloadAt, EntryFields, EntryVals;
  }

  lemma LaidEntry(c: Config, ts: seq<Tensor>, buf: Bytes, i: nat)
    requires Layout(c, ts, buf) && i < |ts| && NameBytes(ts[i].name)
    ensures ReadEntry(buf, HEADER_BYTES + ENTRY_BYTES * i) == Ok(ts[i])
  {
    hide ReadEntry, PayloadAt, EntryRecord, Holds, NameBytes, Fits, EntryVals, DirectoryIn, PayloadsIn, Packable;
    PackableMeans(c, ts);
    DirectoryAt(buf, ts, |ts|, i);
    PayloadsAt(buf, ts, |ts|, i);
    PackableAt(c, ts, i);
    EntryRoundTrip(buf, HEADER_BYTES + ENTRY_BYTES * i, ts[i], PayloadAt(ts, i));
  }

  lemma {:induction false} EntriesRoundTrip(c: Config, ts: seq<Tensor>, buf: Bytes, n: nat)
    requires Layout(c, ts, buf) && n <= |ts| && forall i :: 0 <= i < |ts| ==> NameBytes(ts[i].name)
    ensures ReadEntries(buf, HEADER_BYTES, n) == Ok(ts[..n])
  {
    hide *;
    if n == 0 {
      NothingRead(buf, HEADER_BYTES);
    } else {
      EntriesRoundTrip(c, ts, buf, n - 1);
      LaidEntry(c, ts, buf, n - 1);
      EntriesNext(buf, HEADER_BYTES, n - 1);
      assert ts[..n] == ts[..n - 1] + [ts[n - 1]];
    }
  }

  lemma HeaderNumbers(c: Config, ts: seq<Tensor>, buf: Bytes)
    requires Layout(c, ts, buf)
    ensures |buf| >= 96 == Span(HeaderFields())
    ensures Unpack(buf[..96], HeaderFields()) == HeaderVals(c, |ts|, DataAt(|ts|), |buf|)
  {
    Spans();
    PackRoundTrip(HeaderVals(c, |ts|, DataAt(|ts|), PayloadAt(ts, |ts|)), HeaderFields());
    assert Holds(buf, 0, HeaderRecord(c, ts));
    hide Pack, Unpack, HeaderFields, Fits, HeaderVals;
    assert buf[0..96] == buf[..96];
  }

  /**
    What the writer lays out the reader gives back: the configuration and every
    tensor, in order, with its dtype, shape and payload.
   */
  lemma FileRoundTrip(c: Config, ts: seq<Tensor>, buf: Bytes)
    requires Layout(c, ts, buf) && forall i :: 0 <= i < |ts| ==> NameBytes(ts[i].name)
    ensures ReadEntries(buf, HEADER_BYTES, |ts|) == Ok(ts)
    ensures ReadFile(buf) == Ok(File(c, 0, 0, DataAt(|ts|), |buf|, GROUP_SIZE, Names(ts), ByName(ts)))
  {
    hide Layout, Unpack, ReadEntries, FileOf, HeaderVals, DataAt, NameBytes;
    HeaderNumbers(c, ts, buf);
    EntriesRoundTrip(c, ts, buf, |ts|);
    assert ts[..|ts|] == ts;
    HeaderMeans(c, ts, DataAt(|ts|), |buf|);
  }

  lemma HeaderMeans(c: Config, ts: seq<Tensor>, dataAt: nat, total: nat)
    ensures var h := HeaderVals(c, |ts|, dataAt, total);
      && h[0] == MAGIC && h[1] == VERSION && h[4] == |ts| && h[5] == HEADER_BYTES
      && FileOf(h, ts) == File(c, 0, 0, dataAt, total, GROUP_SIZE, Names(ts), ByName(ts))
  {
    hide Names, ByName, ConfigOf, ConfigVals, TopVals;
    var h, t := HeaderVals(c, |ts|, dataAt, total), TopVals(|ts|, dataAt);
    ConfigRoundTrip(c);
    TopMeans(|ts|, dataAt);
    assert h[9..] == ConfigVals(c);
    assert forall i :: 0 <= i < 8 ==> h[i] == t[i];
  }

  lemma TopMeans(count: nat, dataAt: nat)
    ensures var t := TopVals(count, dataAt);
      && t[0] == MAGIC && t[1] == VERSION && t[2] == HEADER_BYTES && t[3] == 0
      && t[4] == count && t[5] == HEADER_BYTES && t[6] == dataAt && t[7] == 0
  {
  }

  /** With distinct names every tensor is found under its own. */
  lemma {:induction false} ByNameFinds(ts: seq<Tensor>, i: nat)
    requires i < |ts| && forall a, b :: 0 <= a < b < |ts| ==> ts[a].name != ts[b].name
    ensures ts[i].name in ByName(ts) && ByName(ts)[ts[i].name] == ts[i]
  {
    var init := ts[..|ts| - 1];
    if i < |ts| - 1 {
      ByNameFinds(init, i);
    }
  }
}
