/**
  Encoding of core/src/tq_tokenizer.c:117-221 as functions of the text: the
  split into characters and bytes, the greedy merges, and what the result
  decodes to.  TokenizerCode proves the in-place loops against them.
 */
module Tokenizer {
  import opened Words
  import opened Vocabulary

  // ------------------------------------------------------------- splitting

  /** The length a UTF-8 lead byte announces; 1 for anything else. */
  function LeadLen(c: byte): (r: nat)
    ensures 1 <= r <= 4
  {
    if c / 32 == 6 then 2 else if c / 16 == 14 then 3 else if c / 8 == 30 then 4 else 1
  }

  /** A character cut short by the end of the text counts as one byte. */
  function ChunkLen(text: Bytes): (r: nat)
    requires text != []
    ensures 1 <= r <= |text| && r <= 4
  {
    if LeadLen(text[0]) > |text| then 1 else LeadLen(text[0])
  }

  /** Byte tokens of `s`; a byte the vocabulary lacks is dropped. */
  function ByteTokens(v: Vocab, s: Bytes): (r: seq<int>)
    requires v.Valid()
    ensures ValidIds(v, r)
  {
    if s == [] then []
    else
      var b := ByteToken(v, s[0]);
      (if b >= 0 then [b] else []) + ByteTokens(v, s[1..])
  }

  function ChunkTokens(v: Vocab, chunk: Bytes): (r: seq<int>)
    requires v.Valid()
    ensures ValidIds(v, r)
  {
    var id := Lookup(v, chunk);
    if id >= 0 then [id] else ByteTokens(v, chunk)
  }

  function Split(v: Vocab, text: Bytes): (r: seq<int>)
    requires v.Valid()
    ensures ValidIds(v, r)
  {
    if text == [] then []
    else
      var n := ChunkLen(text);
      ChunkTokens(v, text[..n]) + Split(v, text[n..])
  }

  predicate ValidIds(v: Vocab, toks: seq<int>) {
    forall k :: 0 <= k < |toks| ==> 0 <= toks[k] < v.Size()
  }

  function SpaceToken(v: Vocab, text: Bytes): (r: seq<int>)
    requires v.Valid()
    ensures ValidIds(v, r)
  {
    var d := Lookup(v, [SPACE]);
    if text != [] && d >= 0 then [d] else []
  }

  function Initial(v: Vocab, text: Bytes, addBos: bool): (r: seq<int>)
    requires v.Valid()
    ensures ValidIds(v, r)
  {
    hide Split, SpaceToken;
    (if addBos then [v.bos] else []) + SpaceToken(v, text) + Split(v, text)
  }

  // --------------------------------------------------------------- merging

  /** The token that spells both neighbours together, if it fits the scratch buffer. */
  function PairId(v: Vocab, cap: nat, a: int, b: int): (r: int)
    requires v.Valid() && 0 <= a < v.Size() && 0 <= b < v.Size()
    ensures r < v.Size()
  {
    var s := v.Piece(a) + v.Piece(b);
    if |s| > cap then -1 else Lookup(v, s)
  }

  function IdAt(v: Vocab, cap: nat, toks: seq<int>, k: nat): (r: int)
    requires v.Valid() && ValidIds(v, toks) && k + 1 < |toks|
    ensures r < v.Size()
  {
    PairId(v, cap, toks[k], toks[k + 1])
  }

  function ScoreAt(v: Vocab, cap: nat, toks: seq<int>, k: nat): real
    requires v.Valid() && ValidIds(v, toks) && k + 1 < |toks| && IdAt(v, cap, toks, k) >= 0
  {
    v.scores[IdAt(v, cap, toks, k)]
  }

  /** The scan over the first `n` pairs: the place kept so far, or -1. */
  function Best(v: Vocab, cap: nat, toks: seq<int>, n: nat): (r: int)
    requires v.Valid() && ValidIds(v, toks) && (n == 0 || n < |toks|)
    ensures -1 <= r < n
    ensures r >= 0 ==> IdAt(v, cap, toks, r) >= 0
  {
    hide IdAt, ScoreAt;
    if n == 0 then -1
    else
      var was := Best(v, cap, toks, n - 1);
      if IdAt(v, cap, toks, n - 1) >= 0 && (was < 0 || ScoreAt(v, cap, toks, n - 1) > ScoreAt(v, cap, toks, was)) then n - 1
      else was
  }

  function BestOf(v: Vocab, cap: nat, toks: seq<int>): (r: int)
    requires v.Valid() && ValidIds(v, toks)
    ensures r >= 0 ==> r + 1 < |toks| && IdAt(v, cap, toks, r) >= 0
  {
    if |toks| < 2 then -1 else Best(v, cap, toks, |toks| - 1)
  }

  function Replace(toks: seq<int>, k: nat, id: int): (r: seq<int>)
    requires k + 1 < |toks|
    ensures |r| == |toks| - 1
  {
    toks[..k] + [id] + toks[k + 2..]
  }

  function MergeAll(v: Vocab, cap: nat, toks: seq<int>): (r: seq<int>)
    requires v.Valid() && ValidIds(v, toks)
    ensures ValidIds(v, r)
    decreases |toks|
  {
    var k := BestOf(v, cap, toks);
    if k < 0 then toks else MergeAll(v, cap, Replace(toks, k, IdAt(v, cap, toks, k)))
  }

  /** Status or token count, and the tokens. */
  function Encode(v: Vocab, cap: nat, text: Bytes, addBos: bool, addEos: bool, maxTokens: nat): (r: (int, seq<int>))
    requires v.Valid()
  {
    var t := Initial(v, text, addBos);
    if |t| > maxTokens then (ERR_NOMEM, [])
    else
      var m := MergeAll(v, cap, t);
      if !addEos then (|m|, m)
      else if |m| >= maxTokens then (ERR_NOMEM, [])
      else (|m| + 1, m + [v.eos])
  }

  /** There is room exactly for what the split needs, and for an EOS behind what the merges leave. */
  lemma EncodeStatus(v: Vocab, cap: nat, text: Bytes, addBos: bool, maxTokens: nat)
    requires v.Valid()
    ensures var (plain, ended) := (Encode(v, cap, text, addBos, false, maxTokens), Encode(v, cap, text, addBos, true, maxTokens));
      && (plain.0 >= 0 <==> |Initial(v, text, addBos)| <= maxTokens)
      && (ended.0 >= 0 <==> plain.0 >= 0 && |plain.1| < maxTokens)
      && (plain.0 >= 0 ==> plain.0 == |plain.1|)
      && (ended.0 >= 0 ==> ended.0 == |ended.1| && ended.1 == plain.1 + [v.eos])
      && (plain.0 < 0 ==> plain.0 == ERR_NOMEM) && (ended.0 < 0 ==> ended.0 == ERR_NOMEM)
  {
    hide MergeAll, Initial;
  }

  // ------------------------------------------------- the merge loop, proved

  /** Pair `k` can merge, nothing scores higher, and nothing to its left as high. */
  ghost predicate LeftmostHighest(v: Vocab, cap: nat, toks: seq<int>, k: nat)
    requires v.Valid() && ValidIds(v, toks) && k + 1 < |toks|
  {
    IdAt(v, cap, toks, k) >= 0
    && (forall j :: 0 <= j < |toks| - 1 && IdAt(v, cap, toks, j) >= 0 ==>
                      ScoreAt(v, cap, toks, j) <= ScoreAt(v, cap, toks, k)
                      && (j < k ==> ScoreAt(v, cap, toks, j) < ScoreAt(v, cap, toks, k)))
  }

  lemma {:induction false} BestScans(v: Vocab, cap: nat, toks: seq<int>, n: nat)
    requires v.Valid() && ValidIds(v, toks) && (n == 0 || n < |toks|)
    ensures var r := Best(v, cap, toks, n);
      forall j :: 0 <= j < n && IdAt(v, cap, toks, j) >= 0 ==>
        r >= 0 && ScoreAt(v, cap, toks, j) <= ScoreAt(v, cap, toks, r)
        && (j < r ==> ScoreAt(v, cap, toks, j) < ScoreAt(v, cap, toks, r))
  {
    hide IdAt, ScoreAt;
    if n > 0 {
      BestScans(v, cap, toks, n - 1);
    }
  }

  /** The scan picks the leftmost highest-scoring pair, and none only when none can merge. */
  lemma BestIsLeftmostHighest(v: Vocab, cap: nat, toks: seq<int>)
    requires v.Valid() && ValidIds(v, toks)
    ensures var k := BestOf(v, cap, toks);
      if k >= 0 then LeftmostHighest(v, cap, toks, k)
      else forall j :: 0 <= j < |toks| - 1 ==> IdAt(v, cap, toks, j) < 0
  {
    hide IdAt, ScoreAt;
    if |toks| >= 2 {
      BestScans(v, cap, toks, |toks| - 1);
    }
  }

  /** One round of the loop. */
  ghost predicate MergeStep(v: Vocab, cap: nat, before: seq<int>, after: seq<int>)
    requires v.Valid()
  {
    ValidIds(v, before)
    && exists k {:trigger IdAt(v, cap, before, k)} :: 0 <= k < |before| - 1 && LeftmostHighest(v, cap, before, k)
                 && after == Replace(before, k, IdAt(v, cap, before, k))
  }

  /** The token lists of a whole run of the loop, first to last. */
  ghost function Trace(v: Vocab, cap: nat, toks: seq<int>): (r: seq<seq<int>>)
    requires v.Valid() && ValidIds(v, toks)
    decreases |toks|
  {
    var k := BestOf(v, cap, toks);
    if k < 0 then [toks] else [toks] + Trace(v, cap, Replace(toks, k, IdAt(v, cap, toks, k)))
  }

  /** The concatenation of the raw pieces. */
  function Raw(v: Vocab, toks: seq<int>): Bytes
    requires v.Valid() && ValidIds(v, toks)
  {
    if toks == [] then [] else Raw(v, toks[..|toks| - 1]) + v.Piece(toks[|toks| - 1])
  }

  lemma {:induction false} RawConcat(v: Vocab, a: seq<int>, b: seq<int>)
    requires v.Valid() && ValidIds(v, a) && ValidIds(v, b)
    ensures Raw(v, a + b) == Raw(v, a) + Raw(v, b)
  {
    if b == [] {
      assert a + b == a;
    } else {
      var c := b[..|b| - 1];
      RawConcat(v, a, c);
      assert (a + b)[..|a + b| - 1] == a + c;
      assert (a + b)[|a + b| - 1] == b[|b| - 1];
    }
  }

  lemma RawAround(v: Vocab, a: seq<int>, m: seq<int>, b: seq<int>)
    requires v.Valid() && ValidIds(v, a) && ValidIds(v, m) && ValidIds(v, b)
    ensures Raw(v, a + m + b) == Raw(v, a) + Raw(v, m) + Raw(v, b)
  {
    hide Raw;
    RawConcat(v, a + m, b);
    RawConcat(v, a, m);
  }

  lemma RawSmall(v: Vocab, x: int, y: int)
    requires v.Valid() && 0 <= x < v.Size() && 0 <= y < v.Size()
    ensures Raw(v, [x]) == v.Piece(x) && Raw(v, [x, y]) == v.Piece(x) + v.Piece(y)
  {
    assert [x][..0] == [];
    assert [x, y][..1] == [x];
  }

  lemma AroundPair(toks: seq<int>, k: nat)
    requires k + 1 < |toks|
    ensures toks == toks[..k] + [toks[k], toks[k + 1]] + toks[k + 2..]
  {
  }

  lemma RawReplaced(v: Vocab, a: seq<int>, x: int, y: int, b: seq<int>, id: int)
    requires v.Valid() && ValidIds(v, a) && ValidIds(v, b) && ValidIds(v, [x, y]) && ValidIds(v, [id])
    requires 0 <= x < v.Size() && 0 <= y < v.Size() && 0 <= id < v.Size()
    requires v.Piece(id) == v.Piece(x) + v.Piece(y)
    ensures ValidIds(v, a + [id] + b) && ValidIds(v, a + [x, y] + b)
    ensures Raw(v, a + [id] + b) == Raw(v, a + [x, y] + b)
  {
    hide Raw, Vocab.Valid, Vocab.Piece;
    RawSmall(v, x, y);
    RawSmall(v, id, y);
    RawAround(v, a, [x, y], b);
    RawAround(v, a, [id], b);
  }

  /** Every merge keeps the concatenation of the raw pieces. */
  lemma MergeKeepsRaw(v: Vocab, cap: nat, toks: seq<int>, k: nat)
    requires v.Sorted() && ValidIds(v, toks) && k + 1 < |toks| && IdAt(v, cap, toks, k) >= 0
    ensures var next := Replace(toks, k, IdAt(v, cap, toks, k));
      ValidIds(v, next) && Raw(v, next) == Raw(v, toks)
  {
    var id, x, y := IdAt(v, cap, toks, k), toks[k], toks[k + 1];
    LookupExact(v, v.Piece(x) + v.Piece(y));
    hide Raw, Lookup, Vocab.Piece, Vocab.Sorted;
    RawReplaced(v, toks[..k], x, y, toks[k + 2..], id);
    AroundPair(toks, k);
  }

  lemma RoundTaken(v: Vocab, cap: nat, toks: seq<int>)
    requires v.Sorted() && ValidIds(v, toks) && BestOf(v, cap, toks) >= 0
    ensures var next := Replace(toks, BestOf(v, cap, toks), IdAt(v, cap, toks, BestOf(v, cap, toks)));
      MergeStep(v, cap, toks, next) && ValidIds(v, next) && Raw(v, next) == Raw(v, toks)
  {
    var k := BestOf(v, cap, toks);
    BestIsLeftmostHighest(v, cap, toks);
    hide BestOf, IdAt, Raw;
    MergeKeepsRaw(v, cap, toks, k);
  }

  /** Every list of a run has the raw text of the first, and each comes of the one before by a round. */
  ghost predicate IsRun(v: Vocab, cap: nat, toks: seq<int>, run: seq<seq<int>>)
    requires v.Valid() && ValidIds(v, toks)
  {
    && run != [] && run[0] == toks
    && (forall i :: 0 <= i < |run| ==> ValidIds(v, run[i]) && Raw(v, run[i]) == Raw(v, toks))
    && (forall i :: 0 <= i < |run| - 1 ==> MergeStep(v, cap, run[i], run[i + 1]))
  }

  lemma RunGrows(v: Vocab, cap: nat, toks: seq<int>, next: seq<int>, run: seq<seq<int>>)
    requires v.Valid() && ValidIds(v, toks) && ValidIds(v, next) && IsRun(v, cap, next, run)
    requires MergeStep(v, cap, toks, next) && Raw(v, next) == Raw(v, toks)
    ensures IsRun(v, cap, toks, [toks] + run)
  {
    hide Raw, MergeStep, ValidIds, Vocab.Valid;
    var longer := [toks] + run;
    assert forall i :: 0 < i < |longer| ==> longer[i] == run[i - 1];
  }

  lemma TraceStep(v: Vocab, cap: nat, toks: seq<int>)
    requires v.Valid() && ValidIds(v, toks)
    ensures var k := BestOf(v, cap, toks);
      if k < 0 then Trace(v, cap, toks) == [toks] && MergeAll(v, cap, toks) == toks
      else
        var next := Replace(toks, k, IdAt(v, cap, toks, k));
        ValidIds(v, next) && Trace(v, cap, toks) == [toks] + Trace(v, cap, next) && MergeAll(v, cap, toks) == MergeAll(v, cap, next)
  {
    hide BestOf, IdAt, Vocab.Valid;
  }

  lemma RunOfOne(v: Vocab, cap: nat, toks: seq<int>)
    requires v.Valid() && ValidIds(v, toks)
    ensures IsRun(v, cap, toks, [toks])
  {
    hide Raw, MergeStep;
  }

  /**
    A whole run: it starts from the split, ends in MergeAll, takes fewer rounds
    than there are tokens, and every round merges the leftmost highest-scoring
    pair and keeps the raw text.
   */
  lemma {:induction false} MergeRun(v: Vocab, cap: nat, toks: seq<int>)
    requires v.Sorted() && ValidIds(v, toks) && toks != []
    ensures var run := Trace(v, cap, toks);
      && 1 <= |run| <= |toks| && run[|run| - 1] == MergeAll(v, cap, toks)
      && |MergeAll(v, cap, toks)| == |toks| - (|run| - 1) && IsRun(v, cap, toks, run)
    decreases |toks|
  {
    assert v.Valid();
    hide *;
    TraceStep(v, cap, toks);
    var k := BestOf(v, cap, toks);
    if k < 0 {
      RunOfOne(v, cap, toks);
    } else {
      var next := Replace(toks, k, IdAt(v, cap, toks, k));
      RoundTaken(v, cap, toks);
      MergeRun(v, cap, next);
      RunGrows(v, cap, toks, next, Trace(v, cap, next));
    }
  }

  /** The pair does not fit the scratch buffer, or no token spells it. */
  ghost predicate Unmergeable(v: Vocab, cap: nat, a: int, b: int)
    requires v.Valid() && 0 <= a < v.Size() && 0 <= b < v.Size()
  {
    |v.Piece(a)| + |v.Piece(b)| <= cap ==> forall id :: 0 <= id < v.Size() ==> v.Piece(id) != v.Piece(a) + v.Piece(b)
  }

  ghost predicate Exhausted(v: Vocab, cap: nat, toks: seq<int>)
    requires v.Valid() && ValidIds(v, toks)
  {
    forall k :: 0 <= k < |toks| - 1 ==> Unmergeable(v, cap, toks[k], toks[k + 1])
  }

  lemma PairIdExact(v: Vocab, cap: nat, a: int, b: int)
    requires v.Sorted() && 0 <= a < v.Size() && 0 <= b < v.Size()
    ensures PairId(v, cap, a, b) < 0 <==> Unmergeable(v, cap, a, b)
  {
    LookupExact(v, v.Piece(a) + v.Piece(b));
  }

  /** ... which is how the loop ends. */
  lemma {:induction false} MergesExhausted(v: Vocab, cap: nat, toks: seq<int>)
    requires v.Sorted() && ValidIds(v, toks)
    ensures Exhausted(v, cap, MergeAll(v, cap, toks))
    decreases |toks|
  {
    var k := BestOf(v, cap, toks);
    if k >= 0 {
      MergesExhausted(v, cap, Replace(toks, k, IdAt(v, cap, toks, k)));
    } else {
      BestIsLeftmostHighest(v, cap, toks);
      hide BestOf, Unmergeable, PairId;
      forall k | 0 <= k < |toks| - 1
        ensures Unmergeable(v, cap, toks[k], toks[k + 1])
      {
        assert IdAt(v, cap, toks, k) < 0;
        PairIdExact(v, cap, toks[k], toks[k + 1]);
      }
    }
  }

  /** Token `id` spells both neighbours, which fit the scratch buffer together. */
  ghost predicate Joins(v: Vocab, cap: nat, a: int, b: int, id: int)
    requires v.Valid() && 0 <= a < v.Size() && 0 <= b < v.Size()
  {
    |v.Piece(a)| + |v.Piece(b)| <= cap && 0 <= id < v.Size() && v.Piece(id) == v.Piece(a) + v.Piece(b)
  }

  ghost predicate DistinctPieces(v: Vocab)
    requires v.Valid()
  {
    forall a, b :: 0 <= a < v.Size() && 0 <= b < v.Size() && v.Piece(a) == v.Piece(b) ==> a == b
  }

  lemma PairIdJoins(v: Vocab, cap: nat, a: int, b: int, id: int)
    requires v.Sorted() && DistinctPieces(v) && 0 <= a < v.Size() && 0 <= b < v.Size()
    ensures PairId(v, cap, a, b) >= 0 ==> Joins(v, cap, a, b, PairId(v, cap, a, b))
    ensures Joins(v, cap, a, b, id) ==> id == PairId(v, cap, a, b)
  {
    LookupExact(v, v.Piece(a) + v.Piece(b));
    hide Vocab.Sorted, Vocab.Piece;
  }

  /**
    Said of the pieces: the pair that merges next is the leftmost of those whose
    joined token has the highest score, and there is none exactly when no two
    neighbours join.
   */
  lemma NextMerge(v: Vocab, cap: nat, toks: seq<int>)
    requires v.Sorted() && DistinctPieces(v) && ValidIds(v, toks)
    ensures var k := BestOf(v, cap, toks);
      && (k >= 0 ==> k + 1 < |toks| && Joins(v, cap, toks[k], toks[k + 1], IdAt(v, cap, toks, k)))
      && forall j, id :: 0 <= j < |toks| - 1 && Joins(v, cap, toks[j], toks[j + 1], id) ==>
           k >= 0 && v.scores[id] <= v.scores[IdAt(v, cap, toks, k)] && (j < k ==> v.scores[id] < v.scores[IdAt(v, cap, toks, k)])
  {
    var k := BestOf(v, cap, toks);
    assert v.Valid();
    if k >= 0 {
      PairIdJoins(v, cap, toks[k], toks[k + 1], 0);
    }
    hide *;
    forall j, id | 0 <= j < |toks| - 1 && Joins(v, cap, toks[j], toks[j + 1], id)
      ensures 0 <= id < v.Size() && k >= 0 && v.scores[id] <= v.scores[IdAt(v, cap, toks, k)]
      ensures j < k ==> v.scores[id] < v.scores[IdAt(v, cap, toks, k)]
    {
      OtherMerge(v, cap, toks, j, id);
    }
  }

  lemma OtherMerge(v: Vocab, cap: nat, toks: seq<int>, j: nat, id: int)
    requires v.Sorted() && DistinctPieces(v) && ValidIds(v, toks) && j + 1 < |toks| && Joins(v, cap, toks[j], toks[j + 1], id)
    ensures var k := BestOf(v, cap, toks);
      && 0 <= id < v.Size() && k >= 0 && v.scores[id] <= v.scores[IdAt(v, cap, toks, k)]
      && (j < k ==> v.scores[id] < v.scores[IdAt(v, cap, toks, k)])
  {
    BestIsLeftmostHighest(v, cap, toks);
    PairIdJoins(v, cap, toks[j], toks[j + 1], id);
    JoinsInside(v, cap, toks[j], toks[j + 1], id);
    assert v.Valid();
    assert IdAt(v, cap, toks, j) == id;
    hide BestOf, Joins, PairId, IdAt, Vocab.Sorted, Vocab.Valid, DistinctPieces, ValidIds;
  }

  lemma JoinsInside(v: Vocab, cap: nat, a: int, b: int, id: int)
    requires v.Valid() && 0 <= a < v.Size() && 0 <= b < v.Size() && Joins(v, cap, a, b, id)
    ensures 0 <= id < v.Size()
  {
  }
}
