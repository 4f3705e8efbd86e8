/**
  The vocabulary of core/src/tq_tokenizer.c: its order, the binary-search
  lookup, byte-fallback spellings, and what one token decodes to.
 */
module Vocabulary {
  import opened Words

  type Bytes = seq<byte>

  const SPACE: byte := 32

  /** The three blobs of the model file, and the scores as exact reals. */
  datatype Vocab = Vocab(blob: Bytes, offs: seq<nat>, sorted: seq<nat>, scores: seq<real>, bos: nat, eos: nat) {
    ghost predicate Valid() {
      && |offs| >= 1 && |scores| == |sorted| == |offs| - 1 && bos < Size()
      && (forall id :: 0 <= id < Size() ==> InBlob(id))
      && (forall i :: 0 <= i < |sorted| ==> sorted[i] < Size())
    }

    function Size(): nat {
      if |offs| == 0 then 0 else |offs| - 1
    }

    predicate InBlob(id: nat)
      requires id < Size()
    {
      offs[id] <= offs[id + 1] <= |blob|
    }

    function Piece(id: nat): Bytes
      requires Valid() && id < Size()
    {
      assert InBlob(id);
      blob[offs[id]..offs[id + 1]]
    }

    /** The i-th string in the exporter's order. */
    function Key(i: nat): Bytes
      requires Valid() && i < Size()
    {
      Piece(sorted[i])
    }

    /** The exporter's order: every id listed, by raw bytes, shorter first on a tie. */
    ghost predicate Sorted() {
      Valid()
      && (forall id :: 0 <= id < Size() ==> id in sorted)
      && (forall i, j :: 0 <= i < j < |sorted| ==> Cmp(Key(i), Key(j)) <= 0)
    }
  }

  // ------------------------------------------------------------ comparison

  /** memcmp on equally long strings. */
  function MemCmp(a: Bytes, b: Bytes): int
    requires |a| == |b|
  {
    if a == [] then 0
    else if a[0] != b[0] then a[0] as int - b[0] as int
    else MemCmp(a[1..], b[1..])
  }

  function Cmp(a: Bytes, b: Bytes): int {
    var n := if |a| < |b| then |a| else |b|;
    var c := MemCmp(a[..n], b[..n]);
    if c != 0 then c
    else if |a| == |b| then 0
    else if |a| < |b| then -1 else 1
  }

  lemma CmpStep(a: Bytes, b: Bytes)
    ensures a == [] || b == [] ==> Cmp(a, b) == (if |a| == |b| then 0 else if a == [] then -1 else 1)
    ensures a != [] && b != [] && a[0] != b[0] ==> Cmp(a, b) == a[0] as int - b[0] as int
    ensures a != [] && b != [] && a[0] == b[0] ==> Cmp(a, b) == Cmp(a[1..], b[1..])
  {
    if a != [] && b != [] {
      var n := if |a| < |b| then |a| else |b|;
      assert a[..n][1..] == a[1..][..n - 1] && b[..n][1..] == b[1..][..n - 1];
    }
  }

  /** Zero exactly on equal strings, and antisymmetric ... */
  lemma {:induction false} CmpAntisymmetric(a: Bytes, b: Bytes)
    ensures Cmp(a, b) == 0 <==> a == b
    ensures Cmp(a, b) < 0 <==> Cmp(b, a) > 0
  {
    CmpStep(a, b);
    CmpStep(b, a);
    if a != [] && b != [] && a[0] == b[0] {
      CmpAntisymmetric(a[1..], b[1..]);
      assert a == [a[0]] + a[1..] && b == [b[0]] + b[1..];
    }
  }

  /** ... and transitive: a total order. */
  lemma {:induction false} CmpTransitive(a: Bytes, b: Bytes, c: Bytes)
    requires Cmp(a, b) <= 0 && Cmp(b, c) <= 0
    ensures Cmp(a, c) <= 0
    ensures Cmp(a, b) < 0 || Cmp(b, c) < 0 ==> Cmp(a, c) < 0
  {
    CmpStep(a, b);
    CmpStep(b, c);
    CmpStep(a, c);
    if a != [] && b != [] && c != [] && a[0] == b[0] && b[0] == c[0] {
      CmpTransitive(a[1..], b[1..], c[1..]);
    }
  }

  // ----------------------------------------------------------------- lookup

  function Search(v: Vocab, s: Bytes, lo: int, hi: int): (r: int)
    requires v.Valid() && 0 <= lo && hi < v.Size()
    ensures -1 <= r < v.Size()
    decreases hi - lo + 1
  {
    if lo > hi then -1
    else
      var mid := lo + (hi - lo) / 2;
      var c := Cmp(s, v.Key(mid));
      if c == 0 then v.sorted[mid]
      else if c < 0 then Search(v, s, lo, mid - 1)
      else Search(v, s, mid + 1, hi)
  }

  function Lookup(v: Vocab, s: Bytes): (r: int)
    requires v.Valid()
    ensures -1 <= r < v.Size()
  {
    Search(v, s, 0, v.Size() - 1)
  }

  ghost predicate Missing(v: Vocab, s: Bytes, lo: int, hi: int)
    requires v.Valid() && 0 <= lo && hi < v.Size()
  {
    forall i :: lo <= i <= hi ==> v.Key(i) != s
  }

  /** A hit spells the string, sorted or not ... */
  lemma {:induction false} SearchHit(v: Vocab, s: Bytes, lo: int, hi: int)
    requires v.Valid() && 0 <= lo && hi < v.Size()
    ensures Search(v, s, lo, hi) >= 0 ==> v.Piece(Search(v, s, lo, hi)) == s
    decreases hi - lo + 1
  {
    hide Cmp;
    if lo <= hi {
      var mid := lo + (hi - lo) / 2;
      CmpAntisymmetric(s, v.Key(mid));
      SearchHit(v, s, lo, mid - 1);
      SearchHit(v, s, mid + 1, hi);
    }
  }

  /** One round of a search that finds nothing. */
  lemma SearchGoesOn(v: Vocab, s: Bytes, lo: int, hi: int)
    requires v.Valid() && 0 <= lo <= hi < v.Size() && Search(v, s, lo, hi) < 0
    ensures var mid := lo + (hi - lo) / 2;
      && lo <= mid <= hi && Cmp(s, v.Key(mid)) != 0
      && (Cmp(s, v.Key(mid)) < 0 ==> Search(v, s, lo, mid - 1) < 0)
      && (Cmp(s, v.Key(mid)) > 0 ==> Search(v, s, mid + 1, hi) < 0)
  {
    hide Cmp, Vocab.Key;
  }

  lemma MissingNowhere(v: Vocab, s: Bytes, lo: int, hi: int)
    requires v.Valid() && 0 <= lo && hi < v.Size() && lo > hi
    ensures Missing(v, s, lo, hi)
  {
  }

  lemma NothingAbove(v: Vocab, s: Bytes, i: nat)
    requires v.Sorted() && i < v.Size() && Cmp(s, v.Key(i)) < 0
    ensures Missing(v, s, i, v.Size() - 1)
  {
    forall j | i <= j < v.Size()
      ensures v.Key(j) != s
    {
      var p, q := v.Key(i), v.Key(j);
      if i < j {
        CmpTransitive(s, p, q);
      }
      CmpAntisymmetric(s, q);
    }
  }

  lemma NothingBelow(v: Vocab, s: Bytes, j: nat)
    requires v.Sorted() && j < v.Size() && Cmp(s, v.Key(j)) > 0
    ensures Missing(v, s, 0, j)
  {
    var q := v.Key(j);
    assert forall i :: 0 <= i < j ==> Cmp(v.Key(i), q) <= 0;
    CmpAntisymmetric(s, q);
  }

  lemma SortedValid(v: Vocab)
    requires v.Sorted()
    ensures v.Valid()
  {
    hide Vocab.Valid, Vocab.Key;
  }

  lemma MissLeft(v: Vocab, s: Bytes, lo: int, mid: int, hi: int)
    requires v.Sorted() && 0 <= lo <= mid <= hi < v.Size() && Cmp(s, v.Key(mid)) < 0 && Missing(v, s, lo, mid - 1)
    ensures Missing(v, s, lo, hi)
  {
    NothingAbove(v, s, mid);
    hide Cmp, Vocab.Sorted, Vocab.Key;
  }

  lemma MissRight(v: Vocab, s: Bytes, lo: int, mid: int, hi: int)
    requires v.Sorted() && 0 <= lo <= mid <= hi < v.Size() && Cmp(s, v.Key(mid)) > 0 && Missing(v, s, mid + 1, hi)
    ensures Missing(v, s, lo, hi)
  {
    NothingBelow(v, s, mid);
    hide Cmp, Vocab.Sorted, Vocab.Key;
  }

  /** ... and in the exporter's order a miss means no entry spells it. */
  lemma {:induction false} SearchMiss(v: Vocab, s: Bytes, lo: int, hi: int)
    requires v.Sorted() && 0 <= lo && hi < v.Size() && Search(v, s, lo, hi) < 0
    ensures Missing(v, s, lo, hi)
    decreases hi - lo + 1
  {
    hide Cmp, Vocab.Sorted, Vocab.Valid, Vocab.Key, Vocab.Piece, Missing, Search;
    SortedValid(v);
    if lo > hi {
      MissingNowhere(v, s, lo, hi);
    } else {
      var mid := lo + (hi - lo) / 2;
      SearchGoesOn(v, s, lo, hi);
      if Cmp(s, v.Key(mid)) < 0 {
        SearchMiss(v, s, lo, mid - 1);
        MissLeft(v, s, lo, mid, hi);
      } else {
        SearchMiss(v, s, mid + 1, hi);
        MissRight(v, s, lo, mid, hi);
      }
    }
  }

  lemma SortedListsAll(v: Vocab, id: nat) returns (i: nat)
    requires v.Sorted() && id < v.Size()
    ensures i < |v.sorted| && v.sorted[i] == id
  {
    assert id in v.sorted;
    i :| 0 <= i < |v.sorted| && v.sorted[i] == id;
  }

  lemma NotMissed(v: Vocab, s: Bytes, id: nat)
    requires v.Sorted() && id < v.Size() && Missing(v, s, 0, v.Size() - 1)
    ensures v.Piece(id) != s
  {
    var i := SortedListsAll(v, id);
    SortedValid(v);
    hide Vocab.Sorted, Vocab.Valid, Vocab.Piece;
    assert v.Key(i) != s;
  }

  /** A string is found exactly when it is in the vocabulary. */
  lemma LookupExact(v: Vocab, s: Bytes)
    requires v.Sorted()
    ensures Lookup(v, s) >= 0 ==> Lookup(v, s) < v.Size() && v.Piece(Lookup(v, s)) == s
    ensures Lookup(v, s) < 0 ==> forall id :: 0 <= id < v.Size() ==> v.Piece(id) != s
  {
    hide Search, Cmp, Vocab.Sorted, Vocab.Valid, Vocab.Piece, Vocab.Key, Missing;
    SortedValid(v);
    SearchHit(v, s, 0, v.Size() - 1);
    if Lookup(v, s) < 0 {
      SearchMiss(v, s, 0, v.Size() - 1);
      forall id | 0 <= id < v.Size()
        ensures v.Piece(id) != s
      {
        NotMissed(v, s, id);
      }
    }
  }

  // ---------------------------------------------------------- byte fallback

  function HexDigit(n: nat): byte
    requires n < 16
  {
    if n < 10 then 48 + n else 55 + n
  }

  function HexVal(c: byte): int {
    if 48 <= c <= 57 then c - 48
    else if 97 <= c <= 102 then c - 87
    else if 65 <= c <= 70 then c - 55
    else -1
  }

  /** "<0xHH>" */
  function ByteSpelling(b: byte): (s: Bytes)
    ensures |s| == 6
  {
    [60, 48, 120, HexDigit(b / 16), HexDigit(b % 16), 62]
  }

  function ByteToken(v: Vocab, b: byte): (r: int)
    requires v.Valid()
    ensures -1 <= r < v.Size()
  {
    Lookup(v, ByteSpelling(b))
  }

  /** What tq_decode takes for a byte token, either case of hex. */
  predicate IsByteForm(p: Bytes) {
    |p| == 6 && p[0] == 60 && p[1] == 48 && p[2] == 120 && p[5] == 62 && HexVal(p[3]) >= 0 && HexVal(p[4]) >= 0
  }

  function ByteOf(p: Bytes): byte
    requires IsByteForm(p)
  {
    HexVal(p[3]) * 16 + HexVal(p[4])
  }

  lemma SpellingIsByteForm(b: byte)
    ensures IsByteForm(ByteSpelling(b)) && ByteOf(ByteSpelling(b)) == b
  {
  }

  // ---------------------------------------------------------------- decoding

  /** The piece as printed after `prev`: one leading space goes after BOS. */
  function Printed(v: Vocab, prev: int, token: nat): Bytes
    requires v.Valid() && token < v.Size()
  {
    var p := v.Piece(token);
    if prev == v.bos && p != [] && p[0] == SPACE then p[1..] else p
  }

  /** tq_decode: status or byte count, and the bytes written before the NUL. */
  function Decode(v: Vocab, prev: int, token: int, outBytes: nat): (r: (int, Bytes))
    requires v.Valid()
    ensures r.0 >= 0 ==> r.0 == |r.1| < outBytes
  {
    if token < 0 || token >= v.Size() || outBytes < 2 then (ERR_RANGE, [])
    else
      var p := Printed(v, prev, token);
      if IsByteForm(p) then (1, [ByteOf(p)])
      else
        var len := if |p| + 1 > outBytes then outBytes - 1 else |p|;
        (len, p[..len])
  }
}
