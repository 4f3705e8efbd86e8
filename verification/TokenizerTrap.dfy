/**
  The vocabularies on which the tokenizer's round trip fails: for any byte
  spelled out, one that makes a single token of it.
 */
module TokenizerTrap {
  import opened Words
  import opened Vocabulary
  import opened Tokenizer
  import opened TokenizerRoundTrip
  import TokenTensors

  const BOS_PIECE: Bytes := [60, 115, 62]

  function Spellings(n: nat): (r: seq<Bytes>)
    requires n <= 256
    ensures |r| == n && forall b :: 0 <= b < n ==> r[b] == ByteSpelling(b)
  {
    seq(n, b requires 0 <= b < n => ByteSpelling(b))
  }

  function Singles(q: Bytes): (r: seq<Bytes>)
    ensures |r| == |q| && forall k :: 0 <= k < |q| ==> r[k] == [q[k]]
  {
    seq(|q|, k requires 0 <= k < |q| => [q[k]])
  }

  function Starts(t: Bytes): (r: seq<Bytes>)
    ensures |r| == |t| && forall k :: 0 <= k < |t| ==> r[k] == t[..k + 1]
  {
    seq(|t|, k requires 0 <= k < |t| => t[..k + 1])
  }

  /** BOS, all byte tokens, the characters of `q`, and every start of " " + q. */
  function Pieces(q: Bytes): seq<Bytes> {
    [BOS_PIECE] + Spellings(256) + Singles(q) + Starts([SPACE] + q)
  }

  function TrapVocab(q: Bytes): Vocab {
    var pieces := Pieces(q);
    Vocab(TokenTensors.Blob(pieces), TokenTensors.Offsets(pieces), TokenTensors.SortIds(pieces, |pieces|),
          seq(|pieces|, _ => 0.0), 0, 0)
  }

  /** What is listed. */
  predicate Listed(q: Bytes, p: Bytes) {
    p == BOS_PIECE || (|p| == 6 && p == ByteSpelling(ByteOfSpelling(p)))
    || (|p| == 1 && p[0] in q) || (0 < |p| && p <= [SPACE] + q)
  }

  /** The byte a spelling would be of; anything else gives 0. */
  function ByteOfSpelling(p: Bytes): byte {
    if IsByteForm(p) then ByteOf(p) else 0
  }

  lemma PiecesListed(q: Bytes, id: nat)
    requires id < |Pieces(q)|
    ensures Listed(q, Pieces(q)[id])
  {
    var p, t := Pieces(q)[id], [SPACE] + q;
    if id == 0 {
      assert p == BOS_PIECE;
    } else if id < 257 {
      assert p == Spellings(256)[id - 1];
      SpellingIsByteForm(id - 1);
    } else if id < 257 + |q| {
      assert p == Singles(q)[id - 257];
    } else {
      assert p == Starts(t)[id - 257 - |q|];
    }
  }

  lemma ListedPiece(q: Bytes, p: Bytes) returns (id: nat)
    requires Listed(q, p)
    ensures id < |Pieces(q)| && Pieces(q)[id] == p
  {
    var t := [SPACE] + q;
    if p == BOS_PIECE {
      id := 0;
    } else if |p| == 6 && p == ByteSpelling(ByteOfSpelling(p)) {
      id := 1 + ByteOfSpelling(p);
      assert Pieces(q)[id] == Spellings(256)[ByteOfSpelling(p)];
    } else if |p| == 1 && p[0] in q {
      var k :| 0 <= k < |q| && q[k] == p[0];
      id := 257 + k;
      assert Pieces(q)[id] == Singles(q)[k] == p;
    } else {
      id := 257 + |q| + (|p| - 1);
      assert Pieces(q)[id] == Starts(t)[|p| - 1] == p;
    }
  }

  lemma {:induction false} SmallStart(pieces: seq<Bytes>, i: nat)
    requires i <= |pieces| && forall k :: 0 <= k < |pieces| ==> |pieces[k]| <= 7
    ensures TokenTensors.Start(pieces, i) <= 7 * i
  {
    if i > 0 {
      SmallStart(pieces, i - 1);
    }
  }

  /** The vocabulary lists the pieces, in the exporter's order. */
  lemma TrapVocabSpells(q: Bytes)
    requires |q| == 6
    ensures TokenTensors.Spells(TrapVocab(q), Pieces(q)) && |Pieces(q)| == 270 && TrapVocab(q).Valid()
  {
    var pieces := Pieces(q);
    hide TokenTensors.Blob, TokenTensors.Offsets, TokenTensors.SortIds, TokenTensors.Start, TokenTensors.Spells;
    forall k | 0 <= k < |pieces|
      ensures |pieces[k]| <= 7
    {
      PiecesListed(q, k);
    }
    SmallStart(pieces, |pieces|);
    TokenTensors.BlobEnds(pieces, |pieces|);
    TokenTensors.Spelled(TrapVocab(q), pieces);
    SpellsValid(TrapVocab(q), pieces);
  }

  lemma SpellsValid(v: Vocab, pieces: seq<Bytes>)
    requires TokenTensors.Spells(v, pieces)
    ensures v.Valid() && v.Sorted() && v.Size() == |pieces|
  {
  }

  /** In the vocabulary is exactly what is listed. */
  lemma PieceIsListed(q: Bytes, id: int)
    requires |q| == 6 && TrapVocab(q).Valid() && 0 <= id < TrapVocab(q).Size()
    ensures Listed(q, TrapVocab(q).Piece(id)) && (id == 0 ==> TrapVocab(q).Piece(id) == BOS_PIECE)
  {
    TrapVocabSpells(q);
    PieceAt(TrapVocab(q), Pieces(q), id);
    PiecesListed(q, id);
    hide TrapVocab, Listed, Vocab.Piece, Vocab.Valid;
  }

  lemma PieceAt(v: Vocab, pieces: seq<Bytes>, id: int)
    requires TokenTensors.Spells(v, pieces) && 0 <= id < |pieces|
    ensures v.Valid() && id < v.Size() && v.Piece(id) == pieces[id]
  {
  }

  lemma ListedIsHeld(q: Bytes, p: Bytes)
    requires |q| == 6 && Listed(q, p) && TrapVocab(q).Valid()
    ensures Has(TrapVocab(q), p)
  {
    TrapVocabSpells(q);
    var id := ListedPiece(q, p);
    PieceAt(TrapVocab(q), Pieces(q), id);
    hide TrapVocab, Listed, Pieces, Vocab.Piece, Vocab.Valid;
  }

  lemma TrapVocabReady(q: Bytes, outBytes: nat)
    requires |q| == 6 && outBytes > 7
    ensures TrapVocab(q).Valid() && Ready(TrapVocab(q), outBytes)
  {
    var v := TrapVocab(q);
    TrapVocabSpells(q);
    SpellsValid(v, Pieces(q));
    PieceIsListed(q, 0);
    assert ([SPACE] + q)[..1] == [SPACE];
    forall b: byte
      ensures Has(v, ByteSpelling(b))
    {
      SpellingIsByteForm(b);
      ListedIsHeld(q, ByteSpelling(b));
    }
    ListedIsHeld(q, [SPACE]);
    forall id | 0 <= id < v.Size()
      ensures |v.Piece(id)| < outBytes
    {
      PieceIsListed(q, id);
    }
    assert v.bos == 0;
    hide TrapVocab, Pieces, Has, Vocab.Piece, Vocab.Valid, Vocab.Sorted, ByteSpelling;
    ReadyFrom(v, outBytes);
  }

  lemma ReadyFrom(v: Vocab, outBytes: nat)
    requires v.Sorted() && Has(v, [SPACE]) && (forall b: byte :: Has(v, ByteSpelling(b)))
    requires v.Piece(v.bos) == BOS_PIECE && forall id :: 0 <= id < v.Size() ==> |v.Piece(id)| < outBytes
    ensures Ready(v, outBytes)
  {
  }

  // ---------------------------------------------------------------- the run

  /** The characters of a byte spelled out: no space, nothing above 127. */
  lemma FormChars(q: Bytes)
    requires IsByteForm(q)
    ensures |q| == 6 && SPACE !in q && 115 !in q && SevenBit(q)
  {
    assert q == [q[0], q[1], q[2], q[3], q[4], q[5]];
  }

  /** Two tokens merge exactly when their pieces make a listed one that fits. */
  lemma PairListed(q: Bytes, cap: nat, a: int, b: int)
    requires |q| == 6 && TrapVocab(q).Valid() && 0 <= a < TrapVocab(q).Size() && 0 <= b < TrapVocab(q).Size()
    ensures var v := TrapVocab(q);
      var s := v.Piece(a) + v.Piece(b);
      && (PairId(v, cap, a, b) >= 0 <==> |s| <= cap && Listed(q, s))
      && (PairId(v, cap, a, b) >= 0 ==> v.Piece(PairId(v, cap, a, b)) == s)
  {
    var v := TrapVocab(q);
    var s := v.Piece(a) + v.Piece(b);
    TrapVocabSpells(q);
    SpellsValid(v, Pieces(q));
    hide TrapVocab, Listed, Pieces, Lookup, Vocab.Piece, Vocab.Valid, Vocab.Sorted;
    LookupExact(v, s);
    if Lookup(v, s) >= 0 {
      PieceIsListed(q, Lookup(v, s));
    }
    if Listed(q, s) {
      ListedIsHeld(q, s);
    }
  }

  /** What is not listed: anything behind BOS, and two characters. */
  lemma Unlisted(q: Bytes, s: Bytes)
    requires IsByteForm(q)
    ensures s != [] && s[0] == SPACE ==> !Listed(q, BOS_PIECE + s)
    ensures |s| == 2 && s[0] in q ==> !Listed(q, s)
  {
    FormChars(q);
    var t := [SPACE] + q;
    if s != [] && s[0] == SPACE {
      var p := BOS_PIECE + s;
      assert p[0] == 60 && p[1] == 115 && |p| >= 4;
      assert t[0] == SPACE;
    }
    if |s| == 2 && s[0] in q {
      assert t[0] == SPACE;
    }
    hide IsByteForm;
  }

  /** After `m` merges: BOS, the first m + 1 characters as one token, the others one by one. */
  ghost predicate At(v: Vocab, q: Bytes, toks: seq<int>, m: nat)
    requires v.Valid() && |q| == 6
  {
    && m <= 6 && ValidIds(v, toks) && |toks| == 8 - m && toks[0] == v.bos
    && v.Piece(toks[1]) == ([SPACE] + q)[..m + 1]
    && forall i :: 2 <= i < |toks| ==> v.Piece(toks[i]) == [q[m + i - 2]]
  }

  /** What the neighbours spell together. */
  lemma AtPieces(v: Vocab, q: Bytes, toks: seq<int>, m: nat, k: nat)
    requires v.Valid() && |q| == 6 && At(v, q, toks, m) && k + 1 < |toks|
    ensures var s := v.Piece(toks[k]) + v.Piece(toks[k + 1]);
      && (k == 0 ==> v.Piece(toks[1]) != [] && v.Piece(toks[1])[0] == SPACE && s == v.Piece(v.bos) + v.Piece(toks[1]))
      && (k == 1 ==> m < 6 && s == ([SPACE] + q)[..m + 2])
      && (k > 1 ==> |s| == 2 && s[0] in q)
  {
    hide Vocab.Valid, Vocab.Piece;
    var t := [SPACE] + q;
    if k == 0 {
      assert t[..m + 1][0] == SPACE;
    } else if k == 1 {
      assert t[..m + 2] == t[..m + 1] + [q[m]];
    }
  }

  lemma AtValid(v: Vocab, q: Bytes, toks: seq<int>, m: nat)
    requires v.Valid() && |q| == 6 && At(v, q, toks, m)
    ensures m <= 6 && ValidIds(v, toks) && |toks| == 8 - m && forall k :: 0 <= k < |toks| ==> 0 <= toks[k] < v.Size()
  {
    hide Vocab.Valid, Vocab.Piece;
  }

  lemma IdAtIs(v: Vocab, cap: nat, toks: seq<int>, k: nat)
    requires v.Valid() && ValidIds(v, toks) && k + 1 < |toks|
    ensures IdAt(v, cap, toks, k) == PairId(v, cap, toks[k], toks[k + 1])
  {
    hide PairId;
  }

  lemma StartListed(q: Bytes, n: nat)
    requires |q| == 6 && 0 < n <= 7
    ensures Listed(q, ([SPACE] + q)[..n]) && ([SPACE] + q)[..n][0] == SPACE
  {
  }

  /** Of all pairs only the one behind BOS merges, and only while there is one. */
  lemma OnlyFirstMerges(q: Bytes, cap: nat, toks: seq<int>, m: nat, k: nat)
    requires IsByteForm(q) && cap >= 7 && TrapVocab(q).Valid() && At(TrapVocab(q), q, toks, m) && k + 1 < |toks|
    ensures IdAt(TrapVocab(q), cap, toks, k) >= 0 <==> k == 1
    ensures k == 1 ==> m < 6 && TrapVocab(q).Piece(IdAt(TrapVocab(q), cap, toks, k)) == ([SPACE] + q)[..m + 2]
  {
    var v := TrapVocab(q);
    FormChars(q);
    BosFirst(q);
    AtValid(v, q, toks, m);
    IdAtIs(v, cap, toks, k);
    hide *;
    AtPieces(v, q, toks, m, k);
    PairListed(q, cap, toks[k], toks[k + 1]);
    if k == 0 {
      Unlisted(q, v.Piece(toks[1]));
    } else if k == 1 {
      StartListed(q, m + 2);
    } else {
      Unlisted(q, v.Piece(toks[k]) + v.Piece(toks[k + 1]));
    }
  }

  lemma BosFirst(q: Bytes)
    requires |q| == 6 && TrapVocab(q).Valid()
    ensures TrapVocab(q).bos == 0 && TrapVocab(q).Piece(0) == BOS_PIECE
  {
    PieceIsListed(q, 0);
    hide Listed, Pieces, Vocab.Piece;
  }

  lemma PlainIds(q: Bytes, id: int)
    requires IsByteForm(q) && TrapVocab(q).Valid() && 0 <= id < TrapVocab(q).Size()
    requires var p := TrapVocab(q).Piece(id); |p| == 1 || (p != [] && p[0] == SPACE)
    ensures Plain(TrapVocab(q), id)
  {
    PieceIsListed(q, id);
    assert TrapVocab(q).bos == 0;
    hide TrapVocab, Listed, Vocab.Piece, Vocab.Valid;
  }

  lemma TrapBest(q: Bytes, cap: nat, toks: seq<int>, m: nat)
    requires IsByteForm(q) && cap >= 7 && m < 6 && TrapVocab(q).Valid() && |q| == 6 && At(TrapVocab(q), q, toks, m)
    ensures BestOf(TrapVocab(q), cap, toks) == 1
  {
    var v := TrapVocab(q);
    hide TrapVocab, BestOf, IdAt, ScoreAt, IsByteForm, Vocab.Piece, Vocab.Valid;
    OnlyFirstMerges(q, cap, toks, m, 1);
    BestIsLeftmostHighest(v, cap, toks);
    if BestOf(v, cap, toks) >= 0 {
      OnlyFirstMerges(q, cap, toks, m, BestOf(v, cap, toks));
    }
  }

  lemma AtNext(v: Vocab, q: Bytes, toks: seq<int>, m: nat, id: int)
    requires v.Valid() && |q| == 6 && m < 6 && At(v, q, toks, m) && 0 <= id < v.Size()
    requires v.Piece(id) == ([SPACE] + q)[..m + 2]
    ensures At(v, q, Replace(toks, 1, id), m + 1)
  {
    hide Vocab.Valid, Vocab.Piece;
    var next := Replace(toks, 1, id);
    assert forall i :: 2 <= i < |next| ==> next[i] == toks[i + 1];
  }

  lemma TrapStep(q: Bytes, cap: nat, toks: seq<int>, m: nat)
    requires IsByteForm(q) && cap >= 7 && m < 6 && TrapVocab(q).Valid() && |q| == 6 && At(TrapVocab(q), q, toks, m)
    ensures var v := TrapVocab(q);
      && BestOf(v, cap, toks) == 1 && PlainAt(v, cap, toks, 1)
      && At(v, q, Replace(toks, 1, IdAt(v, cap, toks, 1)), m + 1)
  {
    var v := TrapVocab(q);
    hide TrapVocab, BestOf, IdAt, IsByteForm, Vocab.Piece, Vocab.Valid, Plain, Replace;
    TrapBest(q, cap, toks, m);
    OnlyFirstMerges(q, cap, toks, m, 1);
    StartListed(q, m + 1);
    StartListed(q, m + 2);
    var id := IdAt(v, cap, toks, 1);
    PlainIds(q, toks[1]);
    PlainIds(q, toks[2]);
    PlainIds(q, id);
    AtNext(v, q, toks, m, id);
  }

  /** The whole run: six plain merges, and the trap behind BOS. */
  lemma {:induction false} TrapRun(q: Bytes, cap: nat, toks: seq<int>, m: nat)
    requires IsByteForm(q) && cap >= 7 && m <= 6 && TrapVocab(q).Valid() && At(TrapVocab(q), q, toks, m)
    ensures PlainRun(TrapVocab(q), cap, toks)
    ensures At(TrapVocab(q), q, MergeAll(TrapVocab(q), cap, toks), 6)
    decreases |toks|
  {
    var v := TrapVocab(q);
    FormChars(q);
    hide TrapVocab, BestOf, IsByteForm, Vocab.Valid, IdAt, PlainAt;
    assert ValidIds(v, toks);
    hide At;
    if m < 6 {
      TrapStep(q, cap, toks, m);
      TrapRun(q, cap, Replace(toks, 1, IdAt(v, cap, toks, 1)), m + 1);
    } else {
      TrapEnds(q, cap, toks);
    }
  }

  lemma TrapEnds(q: Bytes, cap: nat, toks: seq<int>)
    requires IsByteForm(q) && cap >= 7 && TrapVocab(q).Valid() && At(TrapVocab(q), q, toks, 6)
    ensures BestOf(TrapVocab(q), cap, toks) < 0
  {
    OnlyFirstMerges(q, cap, toks, 6, 0);
    hide TrapVocab, IsByteForm, Vocab.Valid, IdAt;
    BestIsLeftmostHighest(TrapVocab(q), cap, toks);
  }

  /** Each listed character is a token of its own. */
  lemma {:induction false} SplitSingles(v: Vocab, s: Bytes)
    requires v.Sorted() && SevenBit(s) && forall k :: 0 <= k < |s| ==> Has(v, [s[k]])
    ensures |Split(v, s)| == |s| && ValidIds(v, Split(v, s))
    ensures forall k :: 0 <= k < |s| ==> v.Piece(Split(v, s)[k]) == [s[k]]
  {
    if s != [] {
      HeldIsFound(v, [s[0]]);
      SplitStep(v, s);
      hide Split, Lookup, Vocab.Valid, Vocab.Piece, Vocab.Sorted, Has;
      SplitSingles(v, s[1..]);
    }
  }

  lemma SinglesHeld(q: Bytes)
    requires IsByteForm(q) && TrapVocab(q).Valid()
    ensures forall k :: 0 <= k < |q| ==> Has(TrapVocab(q), [q[k]])
  {
    FormChars(q);
    forall k | 0 <= k < |q|
      ensures Has(TrapVocab(q), [q[k]])
    {
      ListedIsHeld(q, [q[k]]);
    }
  }

  lemma AtFirst(v: Vocab, q: Bytes, d: int, chars: seq<int>)
    requires v.Valid() && |q| == 6 && 0 <= d < v.Size() && ValidIds(v, chars) && |chars| == 6
    requires v.Piece(d) == [SPACE] && forall k :: 0 <= k < 6 ==> v.Piece(chars[k]) == [q[k]]
    ensures At(v, q, [v.bos] + ([d] + chars), 0)
  {
    assert ([SPACE] + q)[..1] == [SPACE];
    hide Vocab.Piece;
  }

  lemma TrapInitial(q: Bytes)
    requires IsByteForm(q) && TrapVocab(q).Valid()
    ensures At(TrapVocab(q), q, Initial(TrapVocab(q), q, true), 0)
  {
    var v := TrapVocab(q);
    FormChars(q);
    hide *;
    TrapVocabReady(q, 8);
    SinglesHeld(q);
    ReadySorted(v, 8);
    SplitSingles(v, q);
    InitialOf(v, 8, q);
    AtFirst(v, q, Lookup(v, [SPACE]), Split(v, q));
  }

  /**
    For any byte spelled out, a vocabulary of the round trip and plain merges on
    that text, which comes back as the byte.
   */
  lemma SpelledByteFails(q: Bytes, cap: nat, outBytes: nat)
    requires IsByteForm(q) && cap >= 7 && outBytes > 7
    ensures var v := TrapVocab(q);
      && v.Valid() && Ready(v, outBytes) && PlainText(v, cap, q) && OneToken(v, cap, q)
      && Back(v, cap, q, outBytes) == [ByteOf(q)] != q
  {
    var v := TrapVocab(q);
    FormChars(q);
    TrapVocabReady(q, outBytes);
    hide TrapVocab, IsByteForm, Vocab.Piece, Vocab.Valid, Ready, Initial, MergeAll, At;
    TrapInitial(q);
    TrapRun(q, cap, Initial(v, q, true), 0);
    TrapBack(v, q, Tokens(v, cap, q), outBytes);
  }

  lemma TrapBack(v: Vocab, q: Bytes, toks: seq<int>, outBytes: nat)
    requires IsByteForm(q) && v.Valid() && At(v, q, toks, 6) && outBytes > 7
    ensures |toks| == 2 && v.Piece(toks[1]) == [SPACE] + q && DecodeAll(v, toks, outBytes) == [ByteOf(q)]
  {
    var t := [SPACE] + q;
    assert t[..7] == t && t[1..] == q;
    assert DecodeAll(v, toks[..1], outBytes) == [];
    hide Vocab.Valid, Vocab.Piece;
  }

  // ------------------------------------------------- plain in every run, and failing

  /** A digit of the spelling is a lower-case letter, as no byte token has it. */
  predicate LowerCase(q: Bytes)
    requires IsByteForm(q)
  {
    q[3] >= 97 || q[4] >= 97
  }

  lemma LowerIsNoSpelling(q: Bytes)
    requires IsByteForm(q) && LowerCase(q)
    ensures forall b: byte :: q != ByteSpelling(b)
  {
  }

  /** Two listed pieces that make a listed one: a start of " " + q, and one more character. */
  lemma ListedJoin(q: Bytes, a: Bytes, b: Bytes)
    requires IsByteForm(q) && LowerCase(q) && Listed(q, a) && Listed(q, b) && Listed(q, a + b)
    ensures a != [] && a[0] == SPACE && |b| == 1
  {
    FormChars(q);
    hide *;
    NoSpaceJoin(q, a, b);
    assert (a + b)[0] == a[0];
    SpaceStarts(q, a + b);
    BehindSpace(q, a, b);
    PartOfForm(q, b, |a| - 1);
  }

  lemma SpaceStarts(q: Bytes, s: Bytes)
    requires |q| == 6 && SPACE !in q && Listed(q, s) && s != [] && s[0] == SPACE
    ensures s <= [SPACE] + q
  {
  }

  lemma BehindSpace(q: Bytes, a: Bytes, b: Bytes)
    requires a != [] && a + b <= [SPACE] + q
    ensures |a| + |b| - 1 <= |q| && b == q[|a| - 1..|a| - 1 + |b|]
  {
    var s, t := a + b, [SPACE] + q;
    assert s == t[..|s|];
    assert b == s[|a|..] == t[|a|..|s|];
  }

  /** A listed part of the spelling is one character. */
  lemma PartOfForm(q: Bytes, b: Bytes, i: nat)
    requires IsByteForm(q) && LowerCase(q) && Listed(q, b) && b != [] && i + |b| <= |q| && b == q[i..i + |b|]
    ensures |b| == 1
  {
    FormChars(q);
    LowerIsNoSpelling(q);
    assert forall k :: 0 <= k < |b| ==> b[k] == q[i + k];
    assert |b| == 6 ==> b == q;
    assert ([SPACE] + q)[0] == SPACE;
    hide IsByteForm, LowerCase;
  }

  /** Nothing else comes of two listed pieces. */
  lemma NoSpaceJoin(q: Bytes, a: Bytes, b: Bytes)
    requires |q| == 6 && SPACE !in q && 115 !in q && Listed(q, a) && Listed(q, b) && Listed(q, a + b)
    ensures a != [] && b != [] && a[0] == SPACE
  {
    var s, t := a + b, [SPACE] + q;
    assert a != [] && b != [];
    assert t[0] == SPACE;
    assert forall i :: 0 <= i < |a| ==> s[i] == a[i];
    assert forall i :: 0 <= i < |b| ==> s[|a| + i] == b[i];
  }

  lemma LowerMergesPlainly(q: Bytes, cap: nat)
    requires IsByteForm(q) && LowerCase(q) && TrapVocab(q).Valid()
    ensures PlainVocab(TrapVocab(q), cap)
  {
    var v := TrapVocab(q);
    FormChars(q);
    hide TrapVocab, Listed, PairId, Plain, IsByteForm, LowerCase, Vocab.Piece, Vocab.Valid;
    forall a, b | 0 <= a < v.Size() && 0 <= b < v.Size() && PairId(v, cap, a, b) >= 0
      ensures Plain(v, a) && Plain(v, b) && Plain(v, PairId(v, cap, a, b))
    {
      PairListed(q, cap, a, b);
      PieceIsListed(q, a);
      PieceIsListed(q, b);
      ListedJoin(q, v.Piece(a), v.Piece(b));
      PlainIds(q, a);
      PlainIds(q, b);
      PlainIds(q, PairId(v, cap, a, b));
    }
  }

  /**
    The failing half of the round trip is inhabited with plain merges on every
    text: " <0x4a>" as a token, and the text "<0x4a>" comes back as "J".
   */
  lemma PlainVocabularyFails(cap: nat, outBytes: nat)
    requires cap >= 7 && outBytes > 7
    ensures var q := [60, 48, 120, 52, 97, 62];
      var v := TrapVocab(q);
      && v.Valid() && Ready(v, outBytes) && (forall text :: PlainText(v, cap, text))
      && OneToken(v, cap, q) && Back(v, cap, q, outBytes) == [74] != q
  {
    var q := [60, 48, 120, 52, 97, 62];
    assert IsByteForm(q) && LowerCase(q) && ByteOf(q) == 74;
    var v := TrapVocab(q);
    hide TrapVocab, IsByteForm, Ready, PlainVocab, Initial, PlainRun, Back, Vocab.Valid;
    SpelledByteFails(q, cap, outBytes);
    LowerMergesPlainly(q, cap);
    forall text
      ensures PlainText(v, cap, text)
    {
      PlainVocabRuns(v, cap, Initial(v, text, true));
    }
  }
}
