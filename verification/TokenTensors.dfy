/**
  add_tokenizer of tools/etq/convert.py and the device's view of its four
  tensors in core/src/tq_tokenizer.c: the vocabulary that went in comes out,
  in the order the binary search relies on.
 */
module TokenTensors {
  import opened Words
  import opened EtqFormat
  import opened Vocabulary

  // ------------------------------------------------------------ the sort order

  /** Python's order on bytes objects. */
  predicate Before(a: Bytes, b: Bytes) {
    b != [] && (a == [] || a[0] < b[0] || (a[0] == b[0] && Before(a[1..], b[1..])))
  }

  /** It is the order of tq_cmp. */
  lemma {:induction false} CmpIsBefore(a: Bytes, b: Bytes)
    ensures Before(a, b) <==> Cmp(a, b) < 0
  {
    CmpStep(a, b);
    hide Cmp;
    if a != [] && b != [] && a[0] == b[0] {
      CmpIsBefore(a[1..], b[1..]);
    }
  }

  predicate Ids(pieces: seq<Bytes>, ids: seq<nat>) {
    forall k :: 0 <= k < |ids| ==> ids[k] < |pieces|
  }

  /** A later id goes behind its equals. */
  function Insert(pieces: seq<Bytes>, ids: seq<nat>, x: nat): (r: seq<nat>)
    requires Ids(pieces, ids) && x < |pieces|
    ensures Ids(pieces, r) && |r| == |ids| + 1
  {
    if ids == [] || Before(pieces[x], pieces[ids[0]]) then [x] + ids else [ids[0]] + Insert(pieces, ids[1..], x)
  }

  /** sorted(range(n), key=pieces.__getitem__), which is stable. */
  function SortIds(pieces: seq<Bytes>, n: nat): (r: seq<nat>)
    requires n <= |pieces|
    ensures Ids(pieces, r) && |r| == n
  {
    if n == 0 then [] else Insert(pieces, SortIds(pieces, n - 1), n - 1)
  }

  /** Piece `a` goes before piece `b`: equals go by id. */
  predicate Leads(pieces: seq<Bytes>, a: nat, b: nat)
    requires a < |pieces| && b < |pieces|
  {
    Cmp(pieces[a], pieces[b]) <= 0 && (pieces[a] == pieces[b] ==> a < b)
  }

  ghost predicate LeadsAll(pieces: seq<Bytes>, a: nat, ids: seq<nat>)
    requires a < |pieces| && Ids(pieces, ids)
  {
    forall k :: 0 <= k < |ids| ==> Leads(pieces, a, ids[k])
  }

  ghost predicate InOrder(pieces: seq<Bytes>, ids: seq<nat>)
    requires Ids(pieces, ids)
  {
    ids == [] || (LeadsAll(pieces, ids[0], ids[1..]) && InOrder(pieces, ids[1..]))
  }

  lemma LeadsOn(pieces: seq<Bytes>, a: nat, b: nat, c: nat)
    requires a < |pieces| && b < |pieces| && c < |pieces| && Leads(pieces, a, b) && Leads(pieces, b, c)
    ensures Leads(pieces, a, c)
  {
    CmpTransitive(pieces[a], pieces[b], pieces[c]);
    CmpAntisymmetric(pieces[a], pieces[b]);
    CmpAntisymmetric(pieces[b], pieces[c]);
    CmpAntisymmetric(pieces[a], pieces[c]);
    hide Cmp;
  }

  /** Which way round a larger id goes. */
  lemma LeadsOrNot(pieces: seq<Bytes>, y: nat, x: nat)
    requires y < x < |pieces|
    ensures if Before(pieces[x], pieces[y]) then Leads(pieces, x, y) else Leads(pieces, y, x)
  {
    CmpIsBefore(pieces[x], pieces[y]);
    CmpAntisymmetric(pieces[x], pieces[y]);
    hide Cmp, Before;
  }

  lemma {:induction false} InsertLed(pieces: seq<Bytes>, a: nat, ids: seq<nat>, x: nat)
    requires a < |pieces| && Ids(pieces, ids) && x < |pieces| && LeadsAll(pieces, a, ids) && Leads(pieces, a, x)
    ensures LeadsAll(pieces, a, Insert(pieces, ids, x))
  {
    hide Leads, Before;
    if ids != [] && !Before(pieces[x], pieces[ids[0]]) {
      InsertLed(pieces, a, ids[1..], x);
    }
  }

  lemma LeadsFront(pieces: seq<Bytes>, ids: seq<nat>, x: nat)
    requires x < |pieces| && Ids(pieces, ids) && ids != [] && InOrder(pieces, ids) && Leads(pieces, x, ids[0])
    ensures LeadsAll(pieces, x, ids)
  {
    hide Leads;
    forall k | 0 < k < |ids|
      ensures Leads(pieces, x, ids[k])
    {
      assert ids[1..][k - 1] == ids[k];
      LeadsOn(pieces, x, ids[0], ids[k]);
    }
  }

  lemma {:induction false} InsertKeeps(pieces: seq<Bytes>, ids: seq<nat>, x: nat)
    requires Ids(pieces, ids) && x < |pieces| && InOrder(pieces, ids) && forall k :: 0 <= k < |ids| ==> ids[k] < x
    ensures InOrder(pieces, Insert(pieces, ids, x))
  {
    hide Before, Leads;
    if ids == [] {
    } else {
      LeadsOrNot(pieces, ids[0], x);
      if Before(pieces[x], pieces[ids[0]]) {
        LeadsFront(pieces, ids, x);
        assert ([x] + ids)[1..] == ids;
      } else {
        InsertKeeps(pieces, ids[1..], x);
        InsertLed(pieces, ids[0], ids[1..], x);
        var rest := Insert(pieces, ids[1..], x);
        assert ([ids[0]] + rest)[1..] == rest;
      }
    }
  }

  lemma {:induction false} InsertAdds(pieces: seq<Bytes>, ids: seq<nat>, x: nat)
    requires Ids(pieces, ids) && x < |pieces|
    ensures multiset(Insert(pieces, ids, x)) == multiset(ids) + multiset{x}
  {
    hide Before;
    if ids != [] && !Before(pieces[x], pieces[ids[0]]) {
      InsertAdds(pieces, ids[1..], x);
      assert ids == [ids[0]] + ids[1..];
    }
  }

  function UpTo(n: nat): (r: seq<nat>)
    ensures |r| == n && forall i :: 0 <= i < n ==> r[i] == i
  {
    seq(n, i requires 0 <= i < n => i)
  }

  lemma Below(ids: seq<nat>, n: nat)
    requires multiset(ids) == multiset(UpTo(n))
    ensures forall k :: 0 <= k < |ids| ==> ids[k] < n
  {
    forall k | 0 <= k < |ids|
      ensures ids[k] < n
    {
      assert ids[k] in multiset(UpTo(n));
      assert ids[k] in UpTo(n);
    }
  }

  /** Every id once, in the order of its piece, equals by id. */
  lemma {:induction false} SortIdsSorts(pieces: seq<Bytes>, n: nat)
    requires n <= |pieces|
    ensures InOrder(pieces, SortIds(pieces, n)) && multiset(SortIds(pieces, n)) == multiset(UpTo(n))
  {
    hide Insert, InOrder;
    if n == 0 {
      NothingInOrder(pieces);
    } else {
      var was := SortIds(pieces, n - 1);
      SortIdsSorts(pieces, n - 1);
      Below(was, n - 1);
      InsertKeeps(pieces, was, n - 1);
      InsertAdds(pieces, was, n - 1);
      assert UpTo(n) == UpTo(n - 1) + [n - 1];
    }
  }

  lemma NothingInOrder(pieces: seq<Bytes>)
    ensures InOrder(pieces, [])
  {
  }

  /** Of two places the earlier holds the piece that goes first. */
  lemma {:induction false} InOrderAt(pieces: seq<Bytes>, ids: seq<nat>, i: nat, j: nat)
    requires Ids(pieces, ids) && InOrder(pieces, ids) && i < j < |ids|
    ensures Leads(pieces, ids[i], ids[j])
  {
    hide Leads;
    assert ids[1..][j - 1] == ids[j];
    if i > 0 {
      InOrderAt(pieces, ids[1..], i - 1, j - 1);
    }
  }

  // ---------------------------------------------------------------- the blobs

  function Blob(pieces: seq<Bytes>): (r: Bytes) {
    if pieces == [] then [] else Blob(pieces[..|pieces| - 1]) + pieces[|pieces| - 1]
  }

  /** Where piece `i` starts; for i == |pieces|, where the blob ends. */
  function Start(pieces: seq<Bytes>, i: nat): nat
    requires i <= |pieces|
  {
    if i == 0 then 0 else Start(pieces, i - 1) + |pieces[i - 1]|
  }

  /** The running sums, in 32-bit arithmetic. */
  function Offsets(pieces: seq<Bytes>): (r: seq<nat>)
    ensures |r| == |pieces| + 1
  {
    seq(|pieces| + 1, i requires 0 <= i <= |pieces| => Start(pieces, i) % U32)
  }

  lemma {:induction false} StartPrefix(pieces: seq<Bytes>, n: nat, i: nat)
    requires i <= n <= |pieces|
    ensures Start(pieces[..n], i) == Start(pieces, i)
  {
    if i > 0 {
      StartPrefix(pieces, n, i - 1);
    }
  }

  lemma {:induction false} StartGrows(pieces: seq<Bytes>, i: nat, j: nat)
    requires i <= j <= |pieces|
    ensures Start(pieces, i) <= Start(pieces, j)
  {
    if i < j {
      StartGrows(pieces, i, j - 1);
    }
  }

  lemma {:induction false} BlobPiece(pieces: seq<Bytes>, i: nat)
    requires i < |pieces|
    ensures |Blob(pieces)| == Start(pieces, |pieces|)
    ensures Start(pieces, i) <= Start(pieces, i + 1) <= |Blob(pieces)|
    ensures Blob(pieces)[Start(pieces, i)..Start(pieces, i + 1)] == pieces[i]
    decreases |pieces|
  {
    var n := |pieces| - 1;
    var init := pieces[..n];
    StartPrefix(pieces, n, n);
    if n > 0 {
      BlobPiece(init, if i < n then i else 0);
    }
    if i < n {
      StartPrefix(pieces, n, i);
      StartPrefix(pieces, n, i + 1);
      var a, b := Start(pieces, i), Start(pieces, i + 1);
      assert Blob(pieces)[a..b] == Blob(init)[a..b];
    }
  }

  /** tobytes of an array of 32-bit words. */
  function WordBytes(vals: seq<nat>): (r: Bytes)
    ensures |r| == 4 * |vals|
  {
    if vals == [] then [] else WordBytes(vals[..|vals| - 1]) + Le(vals[|vals| - 1], 4)
  }

  // -------------------------------------------------------- the device's view

  /** The word at `at` ... */
  function Word(buf: Bytes, at: nat): nat
    requires at + 4 <= |buf|
  {
    UnLe(buf[at..at + 4])
  }

  /** ... and an array of `n` of them. */
  function Table(buf: Bytes, at: nat, n: nat): (r: seq<nat>)
    requires at + 4 * n <= |buf|
    ensures |r| == n
    decreases n
  {
    if n == 0 then [] else Table(buf, at, n - 1) + [Word(buf, at + 4 * (n - 1))]
  }

  lemma HeldPart(buf: Bytes, at: nat, part: Bytes, lo: nat, hi: nat)
    requires Holds(buf, at, part) && lo <= hi <= |part|
    ensures at + hi <= |buf| && buf[at + lo..at + hi] == part[lo..hi]
  {
    var held := buf[at..at + |part|];
    assert forall k :: 0 <= k < |part| ==> held[k] == buf[at + k];
  }

  lemma HeldSplit(buf: Bytes, at: nat, a: Bytes, b: Bytes)
    requires Holds(buf, at, a + b)
    ensures Holds(buf, at, a) && Holds(buf, at + |a|, b)
  {
    HeldPart(buf, at, a + b, 0, |a|);
    HeldPart(buf, at, a + b, |a|, |a| + |b|);
    assert (a + b)[0..|a|] == a && (a + b)[|a|..|a| + |b|] == b;
  }

  lemma WordReads(buf: Bytes, at: nat, w: nat)
    requires w < U32 && Holds(buf, at, Le(w, 4))
    ensures at + 4 <= |buf| && Word(buf, at) == w
  {
    Ranges();
    hide Range, Le, UnLe;
    LeRoundTrip(w, 4);
  }

  /** An array of words reads back. */
  lemma {:induction false} TableHeld(buf: Bytes, at: nat, vals: seq<nat>)
    requires Holds(buf, at, WordBytes(vals)) && forall i :: 0 <= i < |vals| ==> vals[i] < U32
    ensures at + 4 * |vals| <= |buf| && Table(buf, at, |vals|) == vals
  {
    hide Word, Holds, Le;
    if vals == [] {
      HeldPart(buf, at, [], 0, 0);
    } else {
      var init, last := vals[..|vals| - 1], vals[|vals| - 1];
      HeldSplit(buf, at, WordBytes(init), Le(last, 4));
      WordReads(buf, at + 4 * |init|, last);
      TableHeld(buf, at, init);
    }
  }

  /** Where the four tensors are. */
  datatype Places = Places(scores: nat, offs: nat, blob: nat, sorted: nat) {
    /** What a vocabulary of `n` reads lies in the file. */
    predicate Inside(buf: Bytes, n: nat) {
      scores + 4 * n <= |buf| && offs + 4 * (n + 1) <= |buf| && sorted + 4 * n <= |buf| && blob + BlobBytes(buf, n) <= |buf|
    }

    function BlobBytes(buf: Bytes, n: nat): nat
      requires offs + 4 * (n + 1) <= |buf|
    {
      Word(buf, offs + 4 * n)
    }
  }

  /** The vocabulary a tokenizer works with; `float` is what a word means as a float. */
  function VocabAt(buf: Bytes, p: Places, n: nat, bos: nat, eos: nat, float: nat -> real): Vocab
    requires p.Inside(buf, n)
  {
    Vocab(buf[p.blob..p.blob + p.BlobBytes(buf, n)],
          Table(buf, p.offs, n + 1),
          Table(buf, p.sorted, n),
          seq(n, i requires 0 <= i < n => float(Table(buf, p.scores, n)[i])),
          bos, eos)
  }

  /** The tensors add_tokenizer writes, in the file at these places. */
  predicate Carries(buf: Bytes, p: Places, pieces: seq<Bytes>, scores: Bytes) {
    && |scores| == 4 * |pieces|
    && Holds(buf, p.scores, scores) && Holds(buf, p.offs, WordBytes(Offsets(pieces)))
    && Holds(buf, p.blob, Blob(pieces)) && Holds(buf, p.sorted, WordBytes(SortIds(pieces, |pieces|)))
  }

  lemma BlobEnds(pieces: seq<Bytes>, i: nat)
    requires i <= |pieces|
    ensures Start(pieces, i) <= Start(pieces, |pieces|) == |Blob(pieces)|
  {
    StartGrows(pieces, i, |pieces|);
    if pieces != [] {
      BlobPiece(pieces, 0);
    }
  }

  /** A blob of less than 4 GiB: the running sums do not wrap. */
  lemma OffsetsExact(pieces: seq<Bytes>)
    requires |Blob(pieces)| < U32
    ensures forall i :: 0 <= i <= |pieces| ==> Offsets(pieces)[i] == Start(pieces, i) < U32
  {
    hide Blob, Start;
    forall i | 0 <= i <= |pieces|
      ensures Offsets(pieces)[i] == Start(pieces, i) < U32
    {
      BlobEnds(pieces, i);
    }
  }

  /** The vocabulary of these pieces, in the exporter's order. */
  ghost predicate Spells(v: Vocab, pieces: seq<Bytes>) {
    v.Sorted() && v.Size() == |pieces| && forall i :: 0 <= i < |pieces| ==> v.Piece(i) == pieces[i]
  }

  lemma Spelled(v: Vocab, pieces: seq<Bytes>)
    requires |pieces| <= U32 && |Blob(pieces)| < U32 && v.bos < |pieces| && |v.scores| == |pieces|
    requires v.blob == Blob(pieces) && v.offs == Offsets(pieces) && v.sorted == SortIds(pieces, |pieces|)
    ensures Spells(v, pieces)
  {
    SortIdsSorts(pieces, |pieces|);
    OffsetsExact(pieces);
    PiecesRead(v, pieces);
    OrderReads(v, pieces, v.sorted);
    hide *;
    SpellsIs(v, pieces);
  }

  lemma SpellsIs(v: Vocab, pieces: seq<Bytes>)
    requires v.Sorted() && v.Size() == |pieces| && forall i :: 0 <= i < |pieces| ==> v.Piece(i) == pieces[i]
    ensures Spells(v, pieces)
  {
  }

  lemma TablesHeld(buf: Bytes, p: Places, pieces: seq<Bytes>, scores: Bytes)
    requires Carries(buf, p, pieces, scores) && |pieces| <= U32 && |Blob(pieces)| < U32
    ensures p.Inside(buf, |pieces|)
    ensures Table(buf, p.offs, |pieces| + 1) == Offsets(pieces) && Table(buf, p.sorted, |pieces|) == SortIds(pieces, |pieces|)
    ensures buf[p.blob..p.blob + p.BlobBytes(buf, |pieces|)] == Blob(pieces)
  {
    hide Blob, WordBytes, Start, SortIds, Holds, Word;
    OffsetsExact(pieces);
    BlobEnds(pieces, |pieces|);
    hide Offsets;
    TableHeld(buf, p.offs, Offsets(pieces));
    TableHeld(buf, p.sorted, SortIds(pieces, |pieces|));
    HeldAll(buf, p.scores, scores);
    HeldAll(buf, p.blob, Blob(pieces));
  }

  /**
    The vocabulary read back is that of the pieces written, in the exporter's
    order, so that the lookup is exact on it.
   */
  lemma VocabReads(buf: Bytes, p: Places, pieces: seq<Bytes>, scores: Bytes, bos: nat, eos: nat, float: nat -> real)
    requires Carries(buf, p, pieces, scores) && bos < |pieces| && |pieces| <= U32 && |Blob(pieces)| < U32
    ensures p.Inside(buf, |pieces|) && Spells(VocabAt(buf, p, |pieces|, bos, eos, float), pieces)
  {
    hide *;
    TablesHeld(buf, p, pieces, scores);
    VocabIs(buf, p, |pieces|, bos, eos, float);
    Spelled(VocabAt(buf, p, |pieces|, bos, eos, float), pieces);
  }

  lemma VocabIs(buf: Bytes, p: Places, n: nat, bos: nat, eos: nat, float: nat -> real)
    requires p.Inside(buf, n)
    ensures var v := VocabAt(buf, p, n, bos, eos, float);
      && v.blob == buf[p.blob..p.blob + p.BlobBytes(buf, n)] && v.offs == Table(buf, p.offs, n + 1)
      && v.sorted == Table(buf, p.sorted, n) && |v.scores| == n && v.bos == bos && v.eos == eos
  {
    hide Table;
  }

  lemma HeldAll(buf: Bytes, at: nat, part: Bytes)
    requires Holds(buf, at, part)
    ensures at + |part| <= |buf| && buf[at..at + |part|] == part
  {
  }

  lemma PiecesRead(v: Vocab, pieces: seq<Bytes>)
    requires |v.scores| == |v.sorted| == |pieces| == |v.offs| - 1 && v.bos < |pieces| && v.blob == Blob(pieces)
    requires forall i :: 0 <= i <= |pieces| ==> v.offs[i] == Start(pieces, i)
    requires forall i :: 0 <= i < |pieces| ==> v.sorted[i] < |pieces|
    ensures v.Valid() && forall i :: 0 <= i < |pieces| ==> v.Piece(i) == pieces[i]
  {
    hide Blob, Start;
    forall i | 0 <= i < |pieces|
      ensures v.InBlob(i) && v.blob[v.offs[i]..v.offs[i + 1]] == pieces[i]
    {
      BlobPiece(pieces, i);
    }
  }

  lemma OrderReads(v: Vocab, pieces: seq<Bytes>, ids: seq<nat>)
    requires v.Valid() && v.Size() == |pieces| && v.sorted == ids && Ids(pieces, ids)
    requires forall i :: 0 <= i < |pieces| ==> v.Piece(i) == pieces[i]
    requires InOrder(pieces, ids) && multiset(ids) == multiset(UpTo(|pieces|))
    ensures v.Sorted()
  {
    assert v.Size() == |ids|;
    hide Cmp, Vocab.Piece, Vocab.Valid, InOrder;
    forall i, j | 0 <= i < j < |ids|
      ensures Cmp(v.Key(i), v.Key(j)) <= 0
    {
      InOrderAt(pieces, ids, i, j);
    }
    forall id | 0 <= id < |pieces|
      ensures id in ids
    {
      assert UpTo(|pieces|)[id] == id;
      assert id in multiset(ids);
    }
  }
}
