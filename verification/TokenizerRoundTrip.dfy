/**
  Decoding what the tokenizer encoded gives the text back, for every byte
  string, and exactly when it does.
 */
module TokenizerRoundTrip {
  import opened Words
  import opened Vocabulary
  import opened Tokenizer

  /** What a token decodes to away from BOS. */
  function Shown(v: Vocab, id: int): Bytes
    requires v.Valid() && 0 <= id < v.Size()
  {
    var p := v.Piece(id);
    if IsByteForm(p) then [ByteOf(p)] else p
  }

  function Shows(v: Vocab, toks: seq<int>): Bytes
    requires v.Valid() && ValidIds(v, toks)
  {
    if toks == [] then [] else Shows(v, toks[..|toks| - 1]) + Shown(v, toks[|toks| - 1])
  }

  /** A string that is one step of the split: a byte, or a lead byte with its announced length. */
  predicate IsChunk(p: Bytes) {
    p != [] && (|p| == 1 || |p| == LeadLen(p[0]))
  }

  /** Neither BOS nor a byte token. */
  predicate Plain(v: Vocab, id: int)
    requires v.Valid() && 0 <= id < v.Size()
  {
    id != v.bos && !IsByteForm(v.Piece(id))
  }

  ghost predicate Has(v: Vocab, s: Bytes)
    requires v.Valid()
  {
    exists id :: 0 <= id < v.Size() && v.Piece(id) == s
  }

  /**
    The vocabularies of the round trip: sorted, holding " " and all 256 byte
    tokens, whose BOS is not spelled like input, and whose pieces fit the output
    buffer.
   */
  ghost predicate Ready(v: Vocab, outBytes: nat) {
    v.Sorted()
    && Has(v, [SPACE])
    && (forall b: byte :: Has(v, ByteSpelling(b)))
    && !IsChunk(v.Piece(v.bos)) && !IsByteForm(v.Piece(v.bos))
    && (forall id :: 0 <= id < v.Size() ==> |v.Piece(id)| < outBytes)
  }

  /** Pair `k` merges without consuming or producing BOS or a byte token. */
  predicate PlainAt(v: Vocab, cap: nat, toks: seq<int>, k: nat)
    requires v.Valid() && ValidIds(v, toks) && k + 1 < |toks| && IdAt(v, cap, toks, k) >= 0
  {
    Plain(v, toks[k]) && Plain(v, toks[k + 1]) && Plain(v, IdAt(v, cap, toks, k))
  }

  /** So does every merge the loop makes from here. */
  predicate PlainRun(v: Vocab, cap: nat, toks: seq<int>)
    requires v.Valid() && ValidIds(v, toks)
    decreases |toks|
  {
    var k := BestOf(v, cap, toks);
    k < 0 || (PlainAt(v, cap, toks, k) && PlainRun(v, cap, Replace(toks, k, IdAt(v, cap, toks, k))))
  }

  /** The text is encoded by plain merges only. */
  predicate PlainText(v: Vocab, cap: nat, text: Bytes)
    requires v.Valid()
  {
    PlainRun(v, cap, Initial(v, text, true))
  }

  /** Every two tokens that can merge at all merge plainly. */
  ghost predicate PlainVocab(v: Vocab, cap: nat)
    requires v.Valid()
  {
    forall a, b :: 0 <= a < v.Size() && 0 <= b < v.Size() && PairId(v, cap, a, b) >= 0 ==>
      Plain(v, a) && Plain(v, b) && Plain(v, PairId(v, cap, a, b))
  }

  /** Then so does every run. */
  lemma {:induction false} PlainVocabRuns(v: Vocab, cap: nat, toks: seq<int>)
    requires v.Valid() && ValidIds(v, toks) && PlainVocab(v, cap)
    ensures PlainRun(v, cap, toks)
    decreases |toks|
  {
    hide BestOf, PairId, Plain;
    var k := BestOf(v, cap, toks);
    if k >= 0 {
      PlainVocabRuns(v, cap, Replace(toks, k, IdAt(v, cap, toks, k)));
    }
  }

  /** " <0xHH>": losing its leading space after BOS turns it into a byte token. */
  predicate Trap(p: Bytes) {
    |p| == 7 && p[0] == SPACE && IsByteForm(p[1..])
  }

  // -------------------------------------------------------------- the split

  ghost predicate NoBos(v: Vocab, toks: seq<int>) {
    forall k :: 0 <= k < |toks| ==> toks[k] != v.bos
  }

  lemma {:induction false} ShowsConcat(v: Vocab, a: seq<int>, b: seq<int>)
    requires v.Valid() && ValidIds(v, a) && ValidIds(v, b)
    ensures ValidIds(v, a + b)
    ensures Shows(v, a + b) == Shows(v, a) + Shows(v, b)
  {
    hide Shown;
    if b == [] {
      assert a + b == a;
    } else {
      var c := b[..|b| - 1];
      ShowsConcat(v, a, c);
      assert (a + b)[..|a + b| - 1] == a + c;
      assert (a + b)[|a + b| - 1] == b[|b| - 1];
    }
  }

  lemma NoBosConcat(v: Vocab, a: seq<int>, b: seq<int>)
    ensures NoBos(v, a + b) <==> NoBos(v, a) && NoBos(v, b)
  {
    assert forall k :: 0 <= k < |a| ==> (a + b)[k] == a[k];
    assert forall k :: 0 <= k < |b| ==> (a + b)[|a| + k] == b[k];
  }

  lemma ShowsOne(v: Vocab, x: int)
    requires v.Valid() && 0 <= x < v.Size()
    ensures ValidIds(v, [x]) && Shows(v, [x]) == Shown(v, x)
    ensures NoBos(v, [x]) <==> x != v.bos
  {
    assert [x][..0] == [];
    assert [x][0] == x;
  }

  lemma HeldIsFound(v: Vocab, s: Bytes)
    requires v.Sorted() && Has(v, s)
    ensures Lookup(v, s) >= 0 && v.Piece(Lookup(v, s)) == s
  {
    LookupExact(v, s);
  }

  lemma ByteTokenShows(v: Vocab, outBytes: nat, b: byte)
    requires Ready(v, outBytes)
    ensures var id := ByteToken(v, b);
      id >= 0 && id != v.bos && Shown(v, id) == [b]
  {
    assert Has(v, ByteSpelling(b));
    HeldIsFound(v, ByteSpelling(b));
    SpellingIsByteForm(b);
  }

  ghost predicate Tells(v: Vocab, toks: seq<int>, text: Bytes)
    requires v.Valid() && ValidIds(v, toks)
  {
    Shows(v, toks) == text && NoBos(v, toks)
  }

  lemma TellsOne(v: Vocab, x: int)
    requires v.Valid() && 0 <= x < v.Size() && x != v.bos
    ensures ValidIds(v, [x]) && Tells(v, [x], Shown(v, x))
  {
    ShowsOne(v, x);
  }

  lemma TellsConcat(v: Vocab, a: seq<int>, b: seq<int>, s: Bytes, t: Bytes)
    requires v.Valid() && ValidIds(v, a) && ValidIds(v, b) && Tells(v, a, s) && Tells(v, b, t)
    ensures ValidIds(v, a + b) && Tells(v, a + b, s + t)
  {
    hide Shows, ValidIds, NoBos;
    ShowsConcat(v, a, b);
    NoBosConcat(v, a, b);
  }

  lemma Halves(s: Bytes, n: nat)
    requires n <= |s|
    ensures s[..n] + s[n..] == s
    ensures n == 1 ==> s[..n] == [s[0]]
  {
  }

  lemma {:induction false} ByteTokensShow(v: Vocab, outBytes: nat, s: Bytes)
    requires Ready(v, outBytes)
    ensures Tells(v, ByteTokens(v, s), s)
  {
    assert v.Valid();
    hide Ready, Shown, ByteToken, Vocab.Valid, ValidIds;
    if s != [] {
      hide Tells;
      ByteTokenShows(v, outBytes, s[0]);
      TellsOne(v, ByteToken(v, s[0]));
      ByteTokensShow(v, outBytes, s[1..]);
      TellsConcat(v, [ByteToken(v, s[0])], ByteTokens(v, s[1..]), [s[0]], s[1..]);
      Halves(s, 1);
    }
  }

  lemma ChunkShows(v: Vocab, outBytes: nat, chunk: Bytes)
    requires Ready(v, outBytes) && IsChunk(chunk)
    ensures Tells(v, ChunkTokens(v, chunk), chunk)
  {
    var id := Lookup(v, chunk);
    if id >= 0 {
      LookupExact(v, chunk);
      ShowsOne(v, id);
    } else {
      ByteTokensShow(v, outBytes, chunk);
    }
  }

  lemma ChunkIsChunk(text: Bytes)
    requires text != []
    ensures IsChunk(text[..ChunkLen(text)])
  {
  }

  /** The split shows exactly the text, malformed or truncated UTF-8 included. */
  lemma {:induction false} SplitShows(v: Vocab, outBytes: nat, text: Bytes)
    requires Ready(v, outBytes)
    ensures Tells(v, Split(v, text), text)
  {
    assert v.Valid();
    hide Ready, ChunkLen, IsChunk, ChunkTokens, Vocab.Valid, ValidIds;
    if text != [] {
      hide Tells;
      var n := ChunkLen(text);
      ChunkIsChunk(text);
      ChunkShows(v, outBytes, text[..n]);
      SplitShows(v, outBytes, text[n..]);
      TellsConcat(v, ChunkTokens(v, text[..n]), Split(v, text[n..]), text[..n], text[n..]);
      Halves(text, n);
    }
  }

  // --------------------------------------------------- kept by every merge

  /** BOS first and nowhere else, then a plain token with the prepended space, showing `want`. */
  ghost predicate Shape(v: Vocab, toks: seq<int>, want: Bytes)
    requires v.Valid()
  {
    ValidIds(v, toks) && toks != [] && toks[0] == v.bos && ValidIds(v, toks[1..]) && Tells(v, toks[1..], want)
    && (|toks| > 1 ==> !IsByteForm(v.Piece(toks[1])) && v.Piece(toks[1]) != [] && v.Piece(toks[1])[0] == SPACE)
  }

  function Wanted(text: Bytes): Bytes {
    if text == [] then [] else [SPACE] + text
  }

  lemma SpaceFound(v: Vocab, outBytes: nat)
    requires Ready(v, outBytes)
    ensures var d := Lookup(v, [SPACE]);
      d >= 0 && d != v.bos && v.Piece(d) == [SPACE] && Shown(v, d) == [SPACE]
  {
    HeldIsFound(v, [SPACE]);
    assert IsChunk([SPACE]);
  }

  lemma ShapeOf(v: Vocab, tail: seq<int>, want: Bytes)
    requires v.Valid() && ValidIds(v, tail) && Tells(v, tail, want)
    requires tail != [] ==> v.Piece(tail[0]) == [SPACE]
    ensures Shape(v, [v.bos] + tail, want)
  {
    var toks := [v.bos] + tail;
    hide Tells;
    assert toks[1..] == tail;
    assert forall k :: 1 <= k < |toks| ==> toks[k] == tail[k - 1];
  }

  lemma InitialIs(v: Vocab, text: Bytes)
    requires v.Valid()
    ensures text == [] ==> Initial(v, text, true) == [v.bos] + []
    ensures text != [] && Lookup(v, [SPACE]) >= 0 ==>
              Initial(v, text, true) == [v.bos] + ([Lookup(v, [SPACE])] + Split(v, text))
  {
    hide Lookup, ChunkTokens, Vocab.Valid, ValidIds;
    if text != [] {
      hide Split;
      assert [v.bos] + SpaceToken(v, text) + Split(v, text) == [v.bos] + (SpaceToken(v, text) + Split(v, text));
    }
  }

  lemma InitialShape(v: Vocab, outBytes: nat, text: Bytes)
    requires Ready(v, outBytes)
    ensures Shape(v, Initial(v, text, true), Wanted(text))
  {
    assert v.Valid();
    InitialIs(v, text);
    if text == [] {
      ShapeOf(v, [], []);
    } else {
      hide Ready, Lookup, Vocab.Valid, Shown, Tells, Shape, Split, ValidIds, Initial;
      var d, rest := Lookup(v, [SPACE]), Split(v, text);
      SpaceFound(v, outBytes);
      SplitShows(v, outBytes, text);
      TellsOne(v, d);
      TellsConcat(v, [d], rest, [SPACE], text);
      ShapeOf(v, [d] + rest, [SPACE] + text);
    }
  }

  /** What a plain merge produces. */
  lemma MergeIsPlain(v: Vocab, cap: nat, toks: seq<int>, k: nat)
    requires v.Sorted() && ValidIds(v, toks) && k + 1 < |toks| && IdAt(v, cap, toks, k) >= 0
    ensures v.Piece(IdAt(v, cap, toks, k)) == v.Piece(toks[k]) + v.Piece(toks[k + 1])
  {
    LookupExact(v, v.Piece(toks[k]) + v.Piece(toks[k + 1]));
    hide Lookup, Vocab.Sorted;
  }

  /** A pair of neighbours may give way to one token that shows the same. */
  lemma TellsReplaced(v: Vocab, a: seq<int>, x: int, y: int, b: seq<int>, id: int, want: Bytes)
    requires v.Valid() && ValidIds(v, a) && ValidIds(v, b) && id != v.bos
    requires 0 <= x < v.Size() && 0 <= y < v.Size() && 0 <= id < v.Size()
    requires Shown(v, id) == Shown(v, x) + Shown(v, y)
    requires ValidIds(v, a + [x, y] + b) && Tells(v, a + [x, y] + b, want)
    ensures ValidIds(v, a + [id] + b) && Tells(v, a + [id] + b, want)
  {
    hide Shows, Shown, NoBos, ValidIds;
    ShowsOne(v, x);
    ShowsOne(v, y);
    ShowsOne(v, id);
    assert [x] + [y] == [x, y];
    ShowsConcat(v, [x], [y]);
    ShowsConcat(v, a, [x, y]);
    ShowsConcat(v, a + [x, y], b);
    ShowsConcat(v, a, [id]);
    ShowsConcat(v, a + [id], b);
    NoBosConcat(v, a, [x, y]);
    NoBosConcat(v, a + [x, y], b);
    NoBosConcat(v, a, [id]);
    NoBosConcat(v, a + [id], b);
  }

  /** Pulled apart after BOS. */
  lemma ReplaceTail(toks: seq<int>, k: nat, id: int)
    requires 0 < k && k + 1 < |toks|
    ensures toks[1..] == toks[1..k] + [toks[k], toks[k + 1]] + toks[k + 2..]
    ensures Replace(toks, k, id)[1..] == toks[1..k] + [id] + toks[k + 2..]
    ensures Replace(toks, k, id)[0] == toks[0] && Replace(toks, k, id)[1] == (if k == 1 then id else toks[1])
  {
  }

  /** Two plain tokens show what the token of both shows. */
  lemma MergeShows(v: Vocab, cap: nat, toks: seq<int>, k: nat)
    requires v.Sorted() && ValidIds(v, toks) && k + 1 < |toks| && IdAt(v, cap, toks, k) >= 0 && PlainAt(v, cap, toks, k)
    ensures var x, y, id := toks[k], toks[k + 1], IdAt(v, cap, toks, k);
      && Shown(v, id) == Shown(v, x) + Shown(v, y) && x != v.bos && id != v.bos
      && !IsByteForm(v.Piece(id)) && v.Piece(id) == v.Piece(x) + v.Piece(y)
  {
    MergeIsPlain(v, cap, toks, k);
    hide IdAt, IsByteForm, Vocab.Sorted, Vocab.Piece;
  }

  lemma MergeKeepsShape(v: Vocab, cap: nat, toks: seq<int>, k: nat, want: Bytes)
    requires v.Sorted() && Shape(v, toks, want) && k + 1 < |toks| && IdAt(v, cap, toks, k) >= 0 && PlainAt(v, cap, toks, k)
    ensures Shape(v, Replace(toks, k, IdAt(v, cap, toks, k)), want)
  {
    assert v.Valid();
    hide Tells, IdAt, PairId, PlainAt, IsByteForm, Shown, Vocab.Valid, Vocab.Sorted, Vocab.Piece, Replace;
    var x, y, id := toks[k], toks[k + 1], IdAt(v, cap, toks, k);
    MergeShows(v, cap, toks, k);
    ReplaceTail(toks, k, id);
    TellsReplaced(v, toks[1..k], x, y, toks[k + 2..], id, want);
    ReplaceValid(v, toks, k, id);
  }

  lemma ReplaceValid(v: Vocab, toks: seq<int>, k: nat, id: int)
    requires ValidIds(v, toks) && k + 1 < |toks| && 0 <= id < v.Size()
    ensures ValidIds(v, Replace(toks, k, id))
  {
  }

  lemma {:induction false} MergeAllKeepsShape(v: Vocab, cap: nat, toks: seq<int>, want: Bytes)
    requires v.Sorted() && Shape(v, toks, want) && PlainRun(v, cap, toks)
    ensures Shape(v, MergeAll(v, cap, toks), want)
    decreases |toks|
  {
    assert v.Valid() && ValidIds(v, toks);
    hide Shape, BestOf, IdAt, PlainAt, Vocab.Sorted;
    var k := BestOf(v, cap, toks);
    if k >= 0 {
      MergeKeepsShape(v, cap, toks, k, want);
      MergeAllKeepsShape(v, cap, Replace(toks, k, IdAt(v, cap, toks, k)), want);
    }
  }

  // --------------------------------------------------------------- decoding

  /** Away from BOS a token that fits the output buffer decodes to what it shows. */
  lemma DecodesToShown(v: Vocab, prev: int, id: int, outBytes: nat)
    requires v.Valid() && 0 <= id < v.Size() && |v.Piece(id)| < outBytes && outBytes >= 2 && prev != v.bos
    ensures Decode(v, prev, id, outBytes).1 == Shown(v, id)
  {
  }

  /** Every token after the first, decoded after its predecessor. */
  function DecodeAll(v: Vocab, toks: seq<int>, outBytes: nat): Bytes
    requires v.Valid()
  {
    if |toks| < 2 then []
    else DecodeAll(v, toks[..|toks| - 1], outBytes) + Decode(v, toks[|toks| - 2], toks[|toks| - 1], outBytes).1
  }

  lemma {:induction false} DecodeAllShows(v: Vocab, toks: seq<int>, outBytes: nat)
    requires v.Valid() && ValidIds(v, toks) && |toks| >= 2 && outBytes >= 2
    requires NoBos(v, toks[1..])
    requires forall id :: 0 <= id < v.Size() ==> |v.Piece(id)| < outBytes
    ensures DecodeAll(v, toks, outBytes) == Decode(v, toks[0], toks[1], outBytes).1 + Shows(v, toks[2..])
  {
    hide Decode, Shown, Vocab.Valid;
    var n := |toks|;
    var init := toks[..n - 1];
    if n > 2 {
      assert toks[n - 2] == toks[1..][n - 3];
      DecodesToShown(v, toks[n - 2], toks[n - 1], outBytes);
      assert init[1..] == toks[1..][..n - 2];
      assert toks[2..][..n - 3] == init[2..];
      DecodeAllShows(v, init, outBytes);
    } else {
      assert DecodeAll(v, init, outBytes) == [];
    }
  }

  /** The first token after BOS loses the prepended space; a Trap collapses to one byte. */
  lemma FirstDecodes(v: Vocab, id: int, outBytes: nat)
    requires v.Valid() && 0 <= id < v.Size() && |v.Piece(id)| < outBytes && outBytes >= 2
    requires v.Piece(id) != [] && v.Piece(id)[0] == SPACE
    ensures var d := Decode(v, v.bos, id, outBytes).1;
      if Trap(v.Piece(id)) then |d| == 1 else d == v.Piece(id)[1..]
  {
  }

  /** Values only: `d` is what the first token decodes to, `p` its piece, `rest` all that follows. */
  lemma SpaceDropped(d: Bytes, p: Bytes, rest: Bytes, text: Bytes)
    requires p != [] && p + rest == [SPACE] + text
    ensures |d| - |p| == |d + rest| - |text| - 1
    ensures d == p[1..] ==> d + rest == text
  {
    assert (p + rest)[1..] == p[1..] + rest;
    assert ([SPACE] + text)[1..] == text;
    assert |p| + |rest| == 1 + |text|;
  }

  lemma TwoShown(v: Vocab, toks: seq<int>, want: Bytes)
    requires v.Valid() && Shape(v, toks, want) && |toks| > 1
    ensures ValidIds(v, toks[2..]) && v.Piece(toks[1]) + Shows(v, toks[2..]) == want && NoBos(v, toks[1..])
  {
    assert Shown(v, toks[1]) == v.Piece(toks[1]);
    assert toks[1..] == [toks[1]] + toks[2..];
    hide Shows, Shown, Vocab.Valid, Vocab.Piece;
    ShowsConcat(v, [toks[1]], toks[2..]);
    ShowsOne(v, toks[1]);
  }

  /** What a shape decodes to: the text, or five bytes less if it is trapped. */
  lemma ShapeDecodes(v: Vocab, toks: seq<int>, text: Bytes, outBytes: nat)
    requires v.Valid() && Shape(v, toks, Wanted(text)) && outBytes >= 2
    requires forall id :: 0 <= id < v.Size() ==> |v.Piece(id)| < outBytes
    ensures if Trapped(v, toks) then |DecodeAll(v, toks, outBytes)| == |text| - 5 else DecodeAll(v, toks, outBytes) == text
  {
    if |toks| > 1 {
      TwoShown(v, toks, Wanted(text));
      hide Shows, Decode, DecodeAll, IsByteForm, Vocab.Valid, Shown, NoBos, Tells;
      DecodeAllShows(v, toks, outBytes);
      FirstDecodes(v, toks[1], outBytes);
      SpaceDropped(Decode(v, v.bos, toks[1], outBytes).1, v.Piece(toks[1]), Shows(v, toks[2..]), text);
    } else {
      assert toks[1..] == [];
    }
  }

  /** The first token after BOS is spelled " <0xHH>". */
  predicate Trapped(v: Vocab, toks: seq<int>)
    requires v.Valid() && ValidIds(v, toks)
  {
    |toks| > 1 && Trap(v.Piece(toks[1]))
  }

  /** What tq_encode makes of a text with BOS and room enough. */
  function Tokens(v: Vocab, cap: nat, text: Bytes): (r: seq<int>)
    requires v.Valid()
    ensures ValidIds(v, r)
  {
    MergeAll(v, cap, Initial(v, text, true))
  }

  /** Decoding a whole text, as print_text does. */
  function Back(v: Vocab, cap: nat, text: Bytes, outBytes: nat): Bytes
    requires v.Valid()
  {
    DecodeAll(v, Tokens(v, cap, text), outBytes)
  }

  lemma EncodeIsTokens(v: Vocab, cap: nat, text: Bytes, maxTokens: nat)
    requires v.Valid() && Encode(v, cap, text, true, false, maxTokens).0 >= 0
    ensures Encode(v, cap, text, true, false, maxTokens).1 == Tokens(v, cap, text)
  {
    hide Initial, MergeAll;
  }

  /**
    For every byte string, decoding its tokens after BOS gives it back exactly
    when its first token is not spelled " <0xHH>"; otherwise five bytes are lost.
   */
  lemma RoundTrip(v: Vocab, cap: nat, outBytes: nat, text: Bytes)
    requires Ready(v, outBytes) && outBytes >= 2 && PlainText(v, cap, text)
    ensures Back(v, cap, text, outBytes) == text <==> !Trapped(v, Tokens(v, cap, text))
    ensures Trapped(v, Tokens(v, cap, text)) ==> |Back(v, cap, text, outBytes)| == |text| - 5
  {
    InitialShape(v, outBytes, text);
    assert forall id :: 0 <= id < v.Size() ==> |v.Piece(id)| < outBytes;
    hide Ready, Shape, Initial, DecodeAll, PlainRun, MergeAll, Trap, Wanted, Vocab.Sorted;
    ReadySorted(v, outBytes);
    MergeAllKeepsShape(v, cap, Initial(v, text, true), Wanted(text));
    ShapeDecodes(v, Tokens(v, cap, text), text, outBytes);
  }

  lemma ReadySorted(v: Vocab, outBytes: nat)
    requires Ready(v, outBytes)
    ensures v.Sorted() && v.Valid()
  {
    hide Vocab.Valid;
  }

  /** So a vocabulary with no such piece gives every byte string back, whatever room tq_encode had if it was enough. */
  lemma RoundTripAll(v: Vocab, cap: nat, outBytes: nat, text: Bytes, maxTokens: nat)
    requires Ready(v, outBytes) && outBytes >= 2 && PlainText(v, cap, text)
    requires forall id :: 0 <= id < v.Size() ==> !Trap(v.Piece(id))
    requires Encode(v, cap, text, true, false, maxTokens).0 >= 0
    ensures DecodeAll(v, Encode(v, cap, text, true, false, maxTokens).1, outBytes) == text
  {
    ReadySorted(v, outBytes);
    hide Ready, Encode, DecodeAll, Trap, PlainText, Tokens;
    RoundTrip(v, cap, outBytes, text);
    EncodeIsTokens(v, cap, text, maxTokens);
  }

  // --------------------------------- exactly which vocabularies round-trip all

  /** A pair that is best in a list is best in every part of it from the left that holds it. */
  lemma BestInPrefix(v: Vocab, cap: nat, toks: seq<int>, n: nat)
    requires v.Valid() && ValidIds(v, toks) && n <= |toks|
    ensures ValidIds(v, toks[..n])
    ensures BestOf(v, cap, toks) < 0 ==> BestOf(v, cap, toks[..n]) < 0
    ensures 0 <= BestOf(v, cap, toks) < n - 1 ==> BestOf(v, cap, toks[..n]) == BestOf(v, cap, toks)
  {
    var k, part := BestOf(v, cap, toks), toks[..n];
    BestIsLeftmostHighest(v, cap, toks);
    BestIsLeftmostHighest(v, cap, part);
    hide BestOf, PairId, Vocab.Valid;
    assert forall j :: 0 <= j < n - 1 ==> IdAt(v, cap, part, j) == IdAt(v, cap, toks, j);
    if 0 <= k < n - 1 {
      assert IdAt(v, cap, part, k) >= 0;
    }
  }

  ghost predicate NoForms(v: Vocab, toks: seq<int>)
    requires v.Valid() && ValidIds(v, toks)
  {
    forall k :: 0 <= k < |toks| ==> !IsByteForm(v.Piece(toks[k]))
  }

  lemma ReplacePrefix(toks: seq<int>, k: nat, id: int, m: nat)
    requires k + 1 < |toks| && m < |toks|
    ensures k < m ==> Replace(toks[..m + 1], k, id) == Replace(toks, k, id)[..m]
    ensures k >= m ==> Replace(toks, k, id)[..m] == toks[..m]
  {
  }

  /**
    The merges are local: the first `n` tokens of a result come from some part
    from the left, which merged on its own gives just them; if no byte token is
    among them, none went in.
   */
  lemma {:induction false} PartFromLeft(v: Vocab, cap: nat, toks: seq<int>, n: nat) returns (i: nat)
    requires v.Valid() && ValidIds(v, toks) && n <= |MergeAll(v, cap, toks)|
    ensures n <= i <= |toks| && ValidIds(v, toks[..i])
    ensures MergeAll(v, cap, toks[..i]) == MergeAll(v, cap, toks)[..n]
    ensures PlainRun(v, cap, toks) && NoForms(v, MergeAll(v, cap, toks)[..n]) ==> NoForms(v, toks[..i])
    decreases |toks|
  {
    hide BestOf, PairId, IdAt, NoForms, PlainAt, Replace, Vocab.Valid;
    var k := BestOf(v, cap, toks);
    if k < 0 {
      i := n;
      BestInPrefix(v, cap, toks, n);
    } else {
      var id := IdAt(v, cap, toks, k);
      ReplaceValid(v, toks, k, id);
      var next := Replace(toks, k, id);
      var m := PartFromLeft(v, cap, next, n);
      ReplacePrefix(toks, k, id, m);
      i := if k < m then m + 1 else m;
      BestInPrefix(v, cap, toks, i);
      PartGrows(v, cap, toks, k, m);
    }
  }

  lemma PartGrows(v: Vocab, cap: nat, toks: seq<int>, k: nat, m: nat)
    requires v.Valid() && ValidIds(v, toks) && k == BestOf(v, cap, toks) && m < |toks|
    requires ValidIds(v, toks[..m]) && ValidIds(v, toks[..m + 1])
    ensures var id := IdAt(v, cap, toks, k);
      && (k < m && BestOf(v, cap, toks[..m + 1]) == k ==>
            MergeAll(v, cap, toks[..m + 1]) == MergeAll(v, cap, Replace(toks, k, id)[..m]))
      && (k < m && PlainAt(v, cap, toks, k) && NoForms(v, Replace(toks, k, id)[..m]) ==> NoForms(v, toks[..m + 1]))
  {
    hide BestOf, PairId, Vocab.Valid;
    var id := IdAt(v, cap, toks, k);
    ReplacePrefix(toks, k, id, m);
    if k < m {
      var part, next := toks[..m + 1], Replace(toks, k, id)[..m];
      assert IdAt(v, cap, part, k) == id;
      if PlainAt(v, cap, toks, k) && NoForms(v, next) {
        forall j | 0 <= j <= m
          ensures !IsByteForm(v.Piece(part[j]))
        {
          if j < k {
            assert next[j] == part[j];
          } else if j > k + 1 {
            assert next[j - 1] == part[j];
          }
        }
      }
    }
  }

  lemma SplitStep(v: Vocab, text: Bytes)
    requires v.Valid() && text != [] && text[0] < 128
    ensures Split(v, text) == ChunkTokens(v, [text[0]]) + Split(v, text[1..])
  {
    hide ChunkTokens, Vocab.Valid;
    assert text[..1] == [text[0]];
  }

  /** The first token of a split is the first character, unless it is a byte token. */
  lemma SplitFirst(v: Vocab, outBytes: nat, text: Bytes)
    requires Ready(v, outBytes) && text != []
    ensures Split(v, text) != [] && ValidIds(v, Split(v, text))
    ensures !IsByteForm(v.Piece(Split(v, text)[0])) ==>
      var n := ChunkLen(text);
      v.Piece(Split(v, text)[0]) == text[..n] && Split(v, text) == [Split(v, text)[0]] + Split(v, text[n..])
  {
    var chunk := text[..ChunkLen(text)];
    LookupExact(v, chunk);
    if Lookup(v, chunk) < 0 {
      HeldIsFound(v, ByteSpelling(chunk[0]));
      SpellingIsByteForm(chunk[0]);
      hide Lookup, ByteSpelling, IsByteForm, Vocab.Piece;
      assert ByteTokens(v, chunk)[0] == ByteToken(v, chunk[0]);
    }
    hide ByteTokens, Vocab.Piece, Lookup;
  }

  predicate SevenBit(s: Bytes) {
    forall i :: 0 <= i < |s| ==> s[i] < 128
  }

  lemma RawFirst(v: Vocab, x: int, rest: seq<int>)
    requires v.Valid() && 0 <= x < v.Size() && ValidIds(v, rest)
    ensures ValidIds(v, [x] + rest) && Raw(v, [x] + rest) == v.Piece(x) + Raw(v, rest)
  {
    RawConcat(v, [x], rest);
    RawSmall(v, x, x);
    hide Raw, Vocab.Piece, Vocab.Valid;
  }

  lemma Peel(toks: seq<int>, m: nat)
    requires 0 < m <= |toks|
    ensures toks[..m] == [toks[0]] + toks[1..][..m - 1]
  {
  }

  /** The first token off a plain ASCII part. */
  lemma PeelPart(v: Vocab, toks: seq<int>, m: nat)
    requires v.Valid() && ValidIds(v, toks) && 0 < m <= |toks| && ValidIds(v, toks[..m])
    requires NoForms(v, toks[..m]) && SevenBit(Raw(v, toks[..m]))
    ensures var x, rest := toks[0], toks[1..][..m - 1];
      && ValidIds(v, rest) && NoForms(v, rest) && SevenBit(Raw(v, rest)) && SevenBit(v.Piece(x)) && !IsByteForm(v.Piece(x))
      && Raw(v, toks[..m]) == v.Piece(x) + Raw(v, rest)
  {
    var x, rest := toks[0], toks[1..][..m - 1];
    Peel(toks, m);
    var part := toks[..m];
    assert forall k :: 0 <= k < |rest| ==> rest[k] == part[k + 1];
    assert part[0] == x;
    hide Raw, IsByteForm, Vocab.Valid, Vocab.Piece;
    RawFirst(v, x, rest);
    SevenBitParts(v.Piece(x), Raw(v, rest));
  }

  lemma SevenBitParts(a: Bytes, b: Bytes)
    requires SevenBit(a + b)
    ensures SevenBit(a) && SevenBit(b)
  {
    assert forall i :: 0 <= i < |a| ==> (a + b)[i] == a[i];
    assert forall i :: 0 <= i < |b| ==> (a + b)[|a| + i] == b[i];
  }

  /** One more character in front of a text and of what it splits into. */
  lemma PrefixGrows(v: Vocab, text: Bytes, q: Bytes, x: int, part: seq<int>)
    requires v.Valid() && text != [] && text[0] < 128 && ChunkTokens(v, [text[0]]) == [x]
    requires q <= text[1..] && Split(v, q) == part
    ensures [text[0]] + q <= text && Split(v, [text[0]] + q) == [x] + part
  {
    hide Split, ChunkTokens, Vocab.Valid;
    assert ([text[0]] + q)[1..] == q;
    SplitStep(v, [text[0]] + q);
    assert text == [text[0]] + text[1..];
  }

  lemma FirstToken(v: Vocab, text: Bytes, x: int)
    requires v.Valid() && text != [] && text[0] < 128 && Split(v, text) == [x] + Split(v, text[1..])
    ensures ChunkTokens(v, [text[0]]) == [x] && Split(v, text)[1..] == Split(v, text[1..])
  {
    SplitStep(v, text);
    hide Split, ChunkTokens, Vocab.Valid;
    ChunkOne(x, Split(v, text), ChunkTokens(v, [text[0]]), Split(v, text[1..]));
  }

  lemma ChunkOne(x: int, toks: seq<int>, c: seq<int>, more: seq<int>)
    requires toks == [x] + more == c + more
    ensures c == [x]
  {
    assert |c| == 1;
    assert c == toks[..1];
  }

  /** The first characters of a text, if plain ASCII, split alone as they split in it. */
  lemma {:induction false} SplitPrefix(v: Vocab, outBytes: nat, text: Bytes, m: nat)
    requires Ready(v, outBytes) && m <= |Split(v, text)| && ValidIds(v, Split(v, text)[..m])
    requires NoForms(v, Split(v, text)[..m]) && SevenBit(Raw(v, Split(v, text)[..m]))
    ensures var q := Raw(v, Split(v, text)[..m]);
      q <= text && Split(v, q) == Split(v, text)[..m]
    decreases m
  {
    ReadySorted(v, outBytes);
    if m == 0 {
      assert Split(v, text)[..0] == [];
    } else {
      hide Ready, Raw, Split, ChunkTokens, IsByteForm, NoForms, ValidIds, Vocab.Piece, Vocab.Valid, Vocab.Sorted;
      var toks := Split(v, text);
      NotEmptySplit(v, text);
      SplitFirst(v, outBytes, text);
      PeelPart(v, toks, m);
      Peel(toks, m);
      OneByte(text);
      FirstToken(v, text, toks[0]);
      SplitPrefix(v, outBytes, text[1..], m - 1);
      PrefixGrows(v, text, Raw(v, toks[1..][..m - 1]), toks[0], toks[1..][..m - 1]);
    }
  }

  lemma OneByte(text: Bytes)
    requires text != [] && SevenBit(text[..ChunkLen(text)])
    ensures ChunkLen(text) == 1 && text[..1] == [text[0]] && text[0] < 128
  {
    assert text[..ChunkLen(text)][0] == text[0];
  }

  lemma NotEmptySplit(v: Vocab, text: Bytes)
    requires v.Valid() && Split(v, text) != []
    ensures text != []
  {
  }

  /** The text is one token in a Ready vocabulary: BOS aside, nothing else. */
  predicate OneToken(v: Vocab, cap: nat, q: Bytes)
    requires v.Valid()
  {
    var t := Tokens(v, cap, q);
    |t| == 2 && v.Piece(t[1]) == [SPACE] + q
  }

  lemma MergeAllRaw(v: Vocab, cap: nat, toks: seq<int>)
    requires v.Sorted() && ValidIds(v, toks) && toks != []
    ensures Raw(v, MergeAll(v, cap, toks)) == Raw(v, toks)
  {
    assert v.Valid();
    hide Raw, MergeAll, MergeStep, Trace, Vocab.Sorted;
    MergeRun(v, cap, toks);
    var run := Trace(v, cap, toks);
    assert Raw(v, run[|run| - 1]) == Raw(v, toks);
  }

  /** What the first two tokens of a trapped text were made from. */
  lemma TrapPart(v: Vocab, cap: nat, outBytes: nat, text: Bytes) returns (i: nat)
    requires Ready(v, outBytes) && PlainText(v, cap, text) && Trapped(v, Tokens(v, cap, text))
    ensures var toks := Initial(v, text, true);
      && 2 <= i <= |toks| && ValidIds(v, toks[..i]) && NoForms(v, toks[..i])
      && MergeAll(v, cap, toks[..i]) == [v.bos, Tokens(v, cap, text)[1]]
      && Raw(v, toks[..i]) == v.Piece(v.bos) + v.Piece(Tokens(v, cap, text)[1])
  {
    var toks, r := Initial(v, text, true), Tokens(v, cap, text);
    ReadySorted(v, outBytes);
    hide Initial, MergeAll, PlainRun, Wanted, Raw, IsByteForm, Vocab.Sorted, Vocab.Piece, Vocab.Valid, Tells, Trap, Ready, NoForms;
    InitialShape(v, outBytes, text);
    MergeAllKeepsShape(v, cap, toks, Wanted(text));
    TrapHead(v, outBytes, r);
    i := PartFromLeft(v, cap, toks, 2);
    hide Shape;
    MergeAllRaw(v, cap, toks[..i]);
    RawSmall(v, v.bos, r[1]);
  }

  lemma TrapHead(v: Vocab, outBytes: nat, r: seq<int>)
    requires Ready(v, outBytes) && ValidIds(v, r) && |r| > 1 && r[0] == v.bos && Trap(v.Piece(r[1]))
    ensures r[..2] == [v.bos, r[1]] && NoForms(v, r[..2])
  {
    var h := r[..2];
    assert h[0] == v.bos && h[1] == r[1];
  }

  lemma TrapText(p: Bytes)
    requires Trap(p)
    ensures |p| == 7 && p == [SPACE] + p[1..] && IsByteForm(p[1..]) && SevenBit(p[1..])
  {
  }

  lemma InitialOf(v: Vocab, outBytes: nat, text: Bytes)
    requires Ready(v, outBytes) && text != []
    ensures 0 <= Lookup(v, [SPACE]) < v.Size() && v.Piece(Lookup(v, [SPACE])) == [SPACE]
    ensures Initial(v, text, true) == [v.bos] + ([Lookup(v, [SPACE])] + Split(v, text))
  {
    SpaceFound(v, outBytes);
    ReadySorted(v, outBytes);
    InitialIs(v, text);
    hide Ready, Initial, Split, Lookup, Vocab.Valid, Vocab.Sorted;
  }

  /** The text in front of the trap: it starts with the spelled byte, and splits alone as it does there. */
  lemma TrapSpelled(v: Vocab, outBytes: nat, text: Bytes, i: nat, p: Bytes)
    requires Ready(v, outBytes) && Trap(p) && 2 <= i <= |Initial(v, text, true)|
    requires NoForms(v, Initial(v, text, true)[..i]) && Raw(v, Initial(v, text, true)[..i]) == v.Piece(v.bos) + p
    ensures |text| >= 6 && text[..6] == p[1..] && Initial(v, text[..6], true) == Initial(v, text, true)[..i]
  {
    hide *;
    TrapText(p);
    ReadySorted(v, outBytes);
    NotEmptyInitial(v, text);
    InitialOf(v, outBytes, text);
    var d, toks := Lookup(v, [SPACE]), Initial(v, text, true);
    TrapSplit(v, text, toks, i, d);
    var rest := Split(v, text)[..i - 2];
    TrapRaw(v, d, rest, p);
    SplitPrefix(v, outBytes, text, i - 2);
    SixBytes(text, p[1..]);
    InitialOf(v, outBytes, text[..6]);
  }

  lemma NotEmptyInitial(v: Vocab, text: Bytes)
    requires v.Valid() && |Initial(v, text, true)| > 1
    ensures text != []
  {
    InitialIs(v, []);
    hide Initial, Vocab.Valid;
  }

  lemma SixBytes(text: Bytes, q: Bytes)
    requires |q| == 6 && q <= text
    ensures |text| >= 6 && text[..6] == q
  {
  }

  /** BOS, a space and the rest spell BOS and " " + q: the rest spells q. */
  lemma TrapRaw(v: Vocab, d: int, rest: seq<int>, p: Bytes)
    requires v.Valid() && ValidIds(v, rest) && 0 <= d < v.Size() && v.Piece(d) == [SPACE] && p != []
    requires ValidIds(v, [v.bos] + ([d] + rest)) && Raw(v, [v.bos] + ([d] + rest)) == v.Piece(v.bos) + p
    ensures Raw(v, rest) == p[1..]
  {
    assert v.bos < v.Size();
    hide Raw, Vocab.Valid, Vocab.Piece;
    RawFirst(v, d, rest);
    RawFirst(v, v.bos, [d] + rest);
    RawTail(v.Piece(v.bos), Raw(v, rest), p);
  }

  /** What goes into a trapped token is a byte spelled out at the start of the text, which is one token on its own. */
  lemma TrapAlone(v: Vocab, cap: nat, outBytes: nat, text: Bytes)
    requires Ready(v, outBytes) && PlainText(v, cap, text) && Trapped(v, Tokens(v, cap, text))
    ensures |text| >= 6 && IsByteForm(text[..6]) && OneToken(v, cap, text[..6])
  {
    ReadySorted(v, outBytes);
    hide Ready, Initial, MergeAll, PlainRun, Raw, IsByteForm, Vocab.Sorted, Vocab.Piece, Vocab.Valid, Trap, NoForms, ValidIds;
    var p := v.Piece(Tokens(v, cap, text)[1]);
    var i := TrapPart(v, cap, outBytes, text);
    TrapText(p);
    TrapSpelled(v, outBytes, text, i, p);
  }

  lemma TrapSplit(v: Vocab, text: Bytes, toks: seq<int>, i: nat, d: int)
    requires v.Valid() && ValidIds(v, toks) && 2 <= i <= |toks|
    requires toks == [v.bos] + ([d] + Split(v, text)) && NoForms(v, toks[..i])
    ensures i - 2 <= |Split(v, text)| && ValidIds(v, Split(v, text)[..i - 2]) && 0 <= d < v.Size()
    ensures ValidIds(v, toks[..i]) && toks[..i] == [v.bos] + ([d] + Split(v, text)[..i - 2])
    ensures NoForms(v, Split(v, text)[..i - 2])
  {
    hide Split, IsByteForm, Vocab.Valid, Vocab.Piece;
    var rest := Split(v, text)[..i - 2];
    assert toks[1] == d;
    assert forall k :: 0 <= k < i - 2 ==> rest[k] == toks[..i][k + 2];
  }

  lemma RawTail(b: Bytes, q: Bytes, p: Bytes)
    requires b + ([SPACE] + q) == b + p
    ensures p == [SPACE] + q && p[1..] == q
  {
    assert (b + p)[|b|..] == p && (b + ([SPACE] + q))[|b|..] == [SPACE] + q;
  }

  /** A text fails only if it starts with a byte spelled out that is one token on its own. */
  lemma FailsOnlyOnSpelled(v: Vocab, cap: nat, outBytes: nat, text: Bytes)
    requires Ready(v, outBytes) && outBytes >= 2 && PlainText(v, cap, text)
    ensures Back(v, cap, text, outBytes) != text ==>
      |text| >= 6 && IsByteForm(text[..6]) && OneToken(v, cap, text[..6])
  {
    RoundTrip(v, cap, outBytes, text);
    hide Ready, Back, PlainText, IsByteForm, OneToken, Trapped;
    if Back(v, cap, text, outBytes) != text {
      TrapAlone(v, cap, outBytes, text);
    }
  }

  lemma OneTokenTraps(v: Vocab, cap: nat, q: Bytes)
    requires v.Valid() && IsByteForm(q) && OneToken(v, cap, q)
    ensures Trapped(v, Tokens(v, cap, q))
  {
    assert ([SPACE] + q)[1..] == q;
    hide Tokens;
  }

  /**
    A vocabulary with plain merges gives every byte string back if and only if no
    byte spelled out is one token: 484 strings to try.
   */
  lemma VocabularyRoundTrip(v: Vocab, cap: nat, outBytes: nat)
    requires Ready(v, outBytes) && outBytes >= 2 && forall text :: PlainText(v, cap, text)
    ensures (forall text :: Back(v, cap, text, outBytes) == text) <==> forall q :: IsByteForm(q) ==> !OneToken(v, cap, q)
  {
    hide Ready, Back, PlainText, IsByteForm, OneToken, Trapped;
    ReadySorted(v, outBytes);
    forall text | Back(v, cap, text, outBytes) != text
      ensures exists q :: IsByteForm(q) && OneToken(v, cap, q)
    {
      FailsOnlyOnSpelled(v, cap, outBytes, text);
    }
    forall q | IsByteForm(q) && OneToken(v, cap, q)
      ensures Back(v, cap, q, outBytes) != q
    {
      RoundTrip(v, cap, outBytes, q);
      OneTokenTraps(v, cap, q);
    }
  }
}
